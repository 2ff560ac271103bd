/**
 One press of the "detect" button, as a pure step over the session log, and
 the log reached from the empty initial log by a sequence of such presses.

 The recognition service's answer is an input (`Inference`): a text on
 success, or the cause of the exception it raised. The random UUID the
 identifier is cut from and the formatted local time are inputs too.
 */
module Detection {
  import opened Normalizer
  import opened ShortIds

  /** One log entry: the dictionary with keys GUID, Matricula and Fecha. */
  datatype Record = Record(guid: string, matricula: string, fecha: string)

  /** The session log, oldest entry first. */
  type Log = seq<Record>

  /** What the recognition call produced: its response text, or the cause
      of the exception raised while calling it or reading its text. */
  datatype Inference = Success(text: string) | Failure(cause: string)

  /** What the user is told: the plate that was added, that no legible
      plate was found, or the error. */
  datatype Outcome = Added(plate: string) | NoPlate | Error(cause: string)

  datatype Step = Step(log: Log, outcome: Outcome)

  /** One press of the button, with the inputs the log update depends on. */
  datatype Attempt = Attempt(inference: Inference, uuidText: string, now: string)

  /** The log a new session starts with. */
  const EmptyLog: Log := []

  predicate WellFormedRecord(r: Record) {
    IsShortId(r.guid) && r.matricula != [] && AllAlnum(r.matricula)
  }

  /** The log invariant: every entry has a well-formed identifier and a
      non-empty, purely alphanumeric plate. */
  predicate WellFormedLog(log: Log) {
    forall i :: 0 <= i < |log| ==> WellFormedRecord(log[i])
  }

  predicate ValidAttempts(attempts: seq<Attempt>) {
    forall i :: 0 <= i < |attempts| ==> IsUuidText(attempts[i].uuidText)
  }

  /** The detection step. On success the response text is normalised; a
      non-empty plate is appended as a new last entry, an empty one leaves
      the log alone. A failed call leaves the log alone and reports its
      cause. Earlier entries are never changed. */
  function Detect(log: Log, inference: Inference, uuidText: string, now: string): (r: Step)
    requires IsUuidText(uuidText)
    ensures |r.log| == |log| + (if r.outcome.Added? then 1 else 0)
    ensures r.log[..|log|] == log
    ensures !r.outcome.Added? ==> r.log == log
    ensures r.outcome.Added? <==> inference.Success? && Normalize(inference.text) != []
    ensures inference.Failure? ==> r.outcome == Error(inference.cause)
    ensures inference.Success? && Normalize(inference.text) == [] ==> r.outcome == NoPlate
    ensures r.outcome.Added? ==>
      && r.outcome.plate == KeepAlnum(inference.text)
      && r.log[|log|].matricula == r.outcome.plate
      && r.log[|log|].fecha == now
      && Lower(r.log[|log|].guid) == uuidText[..8]
    ensures WellFormedLog(log) ==> WellFormedLog(r.log)
  {
    match inference
    case Failure(cause) => Step(log, Error(cause))
    case Success(text) =>
      var plate := Normalize(text);
      if plate != [] then
        ShortIdRoundTrip(uuidText);
        Step(log + [Record(ShortId(uuidText), plate, now)], Added(plate))
      else
        Step(log, NoPlate)
  }

  /** The log after a sequence of button presses in one session. */
  function Run(attempts: seq<Attempt>): (log: Log)
    requires ValidAttempts(attempts)
    ensures |log| <= |attempts|
    ensures WellFormedLog(log)
    decreases |attempts|
  {
    if attempts == [] then EmptyLog
    else
      var last := attempts[|attempts| - 1];
      Detect(Run(attempts[..|attempts| - 1]), last.inference, last.uuidText, last.now).log
  }

  /** Whether an attempt adds an entry. */
  predicate Accepted(a: Attempt) {
    a.inference.Success? && Normalize(a.inference.text) != []
  }

  /** The plates the accepted attempts contribute, in order: a reference
      description of the log's plate column that does not mention the log. */
  function AcceptedPlates(attempts: seq<Attempt>): seq<string>
    decreases |attempts|
  {
    if attempts == [] then []
    else
      var last := attempts[|attempts| - 1];
      AcceptedPlates(attempts[..|attempts| - 1])
        + (if Accepted(last) then [Normalize(last.inference.text)] else [])
  }

  /** The plate column of a log. */
  function Plates(log: Log): (ps: seq<string>)
    ensures |ps| == |log|
    ensures forall i :: 0 <= i < |log| ==> ps[i] == log[i].matricula
  {
    seq(|log|, i requires 0 <= i < |log| => log[i].matricula)
  }

  /** The log's plates are exactly the normalised texts of the accepted
      attempts, in the order of the attempts, duplicates included. */
  lemma {:induction false} RunPlates(attempts: seq<Attempt>)
    requires ValidAttempts(attempts)
    ensures Plates(Run(attempts)) == AcceptedPlates(attempts)
    decreases |attempts|
  {
    if attempts != [] {
      var init, last := attempts[..|attempts| - 1], attempts[|attempts| - 1];
      assert ValidAttempts(init);
      RunPlates(init);
      var before := Run(init);
      var step := Detect(before, last.inference, last.uuidText, last.now);
      if Accepted(last) {
        assert Plates(step.log) == Plates(before) + [Normalize(last.inference.text)];
      } else {
        assert step.log == before;
      }
    }
  }

  /** The log only grows: the log after a prefix of the attempts is a prefix
      of the log after all of them. */
  lemma {:induction false} RunExtends(attempts: seq<Attempt>, n: nat)
    requires ValidAttempts(attempts) && n <= |attempts|
    ensures ValidAttempts(attempts[..n])
    ensures |Run(attempts[..n])| <= |Run(attempts)|
    ensures Run(attempts)[..|Run(attempts[..n])|] == Run(attempts[..n])
    decreases |attempts| - n
  {
    assert ValidAttempts(attempts[..n]);
    if n < |attempts| {
      var init := attempts[..|attempts| - 1];
      assert ValidAttempts(init);
      RunExtends(init, n);
      assert init[..n] == attempts[..n];
      var last := attempts[|attempts| - 1];
      var step := Detect(Run(init), last.inference, last.uuidText, last.now);
      assert Run(attempts) == step.log;
    } else {
      assert attempts[..n] == attempts;
    }
  }

  /** No deduplication: two accepted presses with the same response text
      add two entries carrying the same plate. */
  lemma NoDeduplication(log: Log, text: string, u1: string, u2: string, t1: string, t2: string)
    requires IsUuidText(u1) && IsUuidText(u2) && Normalize(text) != []
    ensures var log' := Detect(Detect(log, Success(text), u1, t1).log, Success(text), u2, t2).log;
      && |log'| == |log| + 2
      && log'[..|log|] == log
      && log'[|log|].matricula == log'[|log| + 1].matricula == Normalize(text)
  {
    var log1 := Detect(log, Success(text), u1, t1).log;
    var log2 := Detect(log1, Success(text), u2, t2).log;
    assert log2[..|log|] == log1[..|log1|][..|log|];
  }
}
