# Licence-plate detector: normaliser and session log

The application takes a photo of a car, asks a hosted multimodal model to read
the plate, cleans the returned text and appends it to a per-session log of
detections (each entry: `GUID`, `Matricula`, `Fecha`) that the page shows and
offers as a spreadsheet. The only logic of its own is what happens after the
model answers, and that is what this project models:

- `normalizer.dfy`, module `Normalizer`: the plate-text normaliser,
  `str.strip()` (Python's notion of whitespace, `str.isspace()`, which covers
  the Unicode space separators and not only ASCII blanks) followed by
  `re.sub(r'[^A-Za-z0-9]', '', ...)` (ASCII letters and digits only).
- `short_ids.dfy`, module `ShortIds`: the entry identifier,
  `str(uuid.uuid4())[:8].upper()`, with the random UUID's text as an input.
- `detection.dfy`, module `Detection`: one press of the detect button as a
  pure step `Detect(log, inference, uuidText, now)` returning the new log and
  what the user is told, and `Run`, the log reached from the empty initial
  log by any sequence of presses.

The exception path of the original is replaced by a result datatype:
`Inference = Success(text) | Failure(cause)`. The random UUID and the
formatted local time are parameters, so the model is deterministic.
`Detect` requires the UUID text to be in the canonical form `str(uuid)`
always has. This is a property of the generator, which the caller cannot
get wrong.

The identifier consists of eight upper-case hexadecimal digits
(`[0-9A-F]`), which is what the code produces. It is not an arbitrary
upper-case alphanumeric string, and the model follows the code on this.

## Model

| member | source | states |
|---|---|---|
| Normalizer.TrimStart | main.py:141 | the result is a suffix of the input; everything cut off is whitespace in Python's sense; the result does not start with whitespace (so the cut is maximal) |
| Normalizer.TrimEnd | main.py:141 | the result is a prefix of the input; everything cut off is whitespace; the result does not end with whitespace |
| Normalizer.Strip | main.py:141 | the result is a contiguous slice of the input with only whitespace before and after it, and it neither starts nor ends with whitespace |
| Normalizer.KeepAlnum | main.py:142 | every character of the filtered text is in `[A-Za-z0-9]` |
| Normalizer.KeepAlnumCounts | main.py:142 | the filter keeps every ASCII letter and digit exactly as often as it occurs in the input |
| Normalizer.KeepAlnumIsSubsequence | main.py:142 | the filtered text is obtained from the input by deleting characters, so order and case are preserved |
| Normalizer.AlnumSubsequenceBound | main.py:142 | no subsequence of the input made of ASCII letters and digits is longer than the filtered text |
| Normalizer.AlnumSubsequenceUnique | main.py:142 | an ASCII-alphanumeric subsequence of the input as long as the filtered text is the filtered text |
| Normalizer.KeepAlnumAppend | main.py:142 | filtering a concatenation is concatenating the filtered parts |
| Normalizer.KeepAlnumFixpoint | main.py:142 | a string of ASCII letters and digits passes the filter unchanged |
| Normalizer.Normalize | main.py:141-142 | the normalised text consists of ASCII letters and digits only and equals the filter applied to the unstripped input |
| Normalizer.StripIrrelevant | main.py:141-142 | stripping the whitespace first does not change what the filter returns, because no whitespace character is a letter or digit |
| Normalizer.NormalizeIdempotent | main.py:141-142 | normalising a normalised text returns it unchanged |
| Normalizer.NormalizeIsLongestAlnumSubsequence | main.py:141-142 | the normalised text is exactly the input with its ASCII letters and digits kept in their original order and case: the longest such subsequence and the only one of that length |
| Normalizer.NormalizeCounts | main.py:141-142 | a character occurs in the normalised text exactly as often as in the input if it is an ASCII letter or digit, and not at all otherwise |
| Normalizer.KeepAlnumExamplePlate | main.py:142 | `ABC-1234 ` filters to `ABC1234` |
| Normalizer.NormalizeExampleEmpty | main.py:141-142 | the empty text and `###` normalise to the empty text |
| ShortIds.ShortId | main.py:148 | the identifier is eight upper-case hexadecimal digits with the same values as the UUID's first group |
| ShortIds.ShortIdRoundTrip | main.py:148 | lower-casing the identifier gives back the first eight characters of the UUID text |
| Detection.Detect | main.py:124-155 | the log grows by exactly one entry when the call succeeded and its normalised text is non-empty, and is otherwise returned unchanged; earlier entries never change; the new last entry carries the normalised plate, the given time and an identifier cut from the given UUID; a failure is reported with its cause, an empty plate as "no plate"; the log invariant is preserved |
| Detection.Run | main.py:101-102 | starting from the empty log, any sequence of presses yields a log no longer than the number of presses in which every entry has a well-formed identifier and a non-empty alphanumeric plate |
| Detection.RunPlates | main.py:144-151 | the log's plate column is exactly the list of normalised texts of the successful, non-empty attempts, in order, duplicates kept |
| Detection.RunExtends | main.py:147-151 | the log after the first n presses is a prefix of the log after all of them, so the log never shrinks and entries are never rewritten |
| Detection.NoDeduplication | main.py:147-151 | two accepted presses with the same response text add two entries with the same plate |

## Left out

- The page set-up, styling, layout, file uploader, spinner and all messages shown to the user (main.py:18-123, 145-146, 153, 155-184): presentation. The model returns an `Outcome` saying which message would appear and carries the error cause.
- The model configuration and the `generate_content` call (main.py:8-16, 126-139): a call into a remote service. It is represented only by the `Inference` input.
- The random UUID (main.py:148): randomness. The UUID's text is an input, assumed in canonical form. Identifiers are not proved distinct, because eight hexadecimal digits of a random UUID give no uniqueness guarantee.
- The timestamp (main.py:150): clock access and `strftime` formatting. It is an opaque string input.
- The spreadsheet export (main.py:166-180): a thin wrapper over the DataFrame and Excel libraries, whose byte format is not visible from this code.
- Streamlit session state and script reruns: the log is an explicit value passed in and returned. The "only if absent" initialisation (main.py:101-102) becomes `Run` starting from `EmptyLog`.
- An exception raised by the display calls inside the `try` block before the append (main.py:145-146) would also skip the append. The display is not modelled, so this path is not modelled either.
- The "no image uploaded" branch (main.py:119, 156-157) performs no detection and leaves the log untouched.
- Python strings may hold lone surrogate code points, and Dafny's `char` cannot. Such characters are not letters or digits, so the filter would delete them anyway.
- ShortIds.ShortId: `str.upper()` is modelled on ASCII letters only. This is enough here, because the eight characters it is applied to are hexadecimal digits.
- Normalizer.KeepAlnumExamplePlate: the `ABC-1234 ` example is stated for the filter and not for the whole normaliser. `Normalize` is proved equal to the filter on every input, so the two agree on this input too.
