# e-SAJ connector: CNJ process-number normalisation

This project models the one piece of logic in the e-SAJ connector. The
connector is a small HTTP service that takes a Brazilian judicial process
number (CNJ / NPU) in free form. It brings the number to the canonical shape
`NNNNNNN-DD.AAAA.J.TR.OOOO` and answers with a stub response body.

The model has three modules:

- `Wrappers` (`wrappers.dfy`): the `Option` type. It stands for "no regex
  match" and for the JSON `null` fields.
- `Cnj` (`cnj.dfy`): `normalize_cnj`. It has two stages.
  - The punctuated pattern `\d{7}-\d{2}\.\d{4}\.\d\.\d{2}\.\d{4}` is modelled
    as a slot layout (`SlotAt`, `IsCanonical`). Its leftmost search is
    `SearchPunct`.
  - The substitution `re.sub(r"\D+", "", s)` is `StripNonDigits`.
  - The pattern `\b\d{20}\b` is `Digits20At`, with an explicit word-boundary
    predicate. Its leftmost search is `SearchDigits20`.
  - The 7/9/13/14/16/20 re-punctuation is `Punctuate`.
  - `Normalize` composes these exactly as `normalize_cnj` does.
- `Consulta` (`consulta.dfy`): the decisions inside the `/consulta` handler.
  These are the `tribunal` heuristic (`Tribunal`, with `EndsWith` and
  `Contains` for Python's `endswith` and `in`) and the choice between the
  failure body and the success body (`Response`, `Consulta`).

Everything is pure: functions, plus lemmas relating them.

Two properties carry most of the proof:

- After stripping, the string holds only digits, so `\b` can only hold at its
  two ends. The raw-digit stage therefore succeeds exactly when the input
  holds 20 digit characters in total, wherever they stand (`DigitsOnlySearch`,
  `NormalizeRawDigits`).
- On a canonical number, `.8.26.` can only occur at index 15. The court
  heuristic is therefore "segment 8 and court 26", and the `endswith` test
  adds nothing (`InfixOnlyAtSegment`, `SaoPauloTestOnCanonical`, `Tribunal`).

The response bodies are the two that `main.py` builds:

- The failure body (main.py:52-56) has `ok` (false), `message`
  ("NPU inválido ou não reconhecido") and `numero` (the original input).
- The success body (main.py:61-71) has `ok` (true), `numero`, `tribunal`,
  `grau`, `url_publica`, `resumo`, `partes`, `movimentacoes` and `message`.

A punctuated match (main.py:17, 23-25) is taken without any boundary check.
With eight digits before the dash, the number is taken from index 1
(`EightLeadingDigitsExample`).

## Model

| member | source | states |
|---|---|---|
| `Cnj.CanonicalShape` | main.py:17 | `IsCanonical`, built on the slot layout `SlotAt`, holds exactly for 25 characters with `-` at 7, `.` at 10/15/17/20 and a digit everywhere else: the punctuated pattern spelled out |
| `Cnj.SearchPunct` | main.py:17-25 | a found index is a match of the punctuated pattern, and no earlier index is one; "none" means no index at all matches |
| `Cnj.StripNonDigits` | main.py:26 | deleting the non-digits never lengthens the string |
| `Cnj.StripLeavesDigits` | main.py:26 | only digits are left after the substitution |
| `Cnj.StripKeepsExactlyTheDigits` | main.py:26 | each digit occurs in the result as often as in the input, and no non-digit occurs at all |
| `Cnj.StripConcat` | main.py:26 | deleting the non-digits keeps the order of the digits (it distributes over concatenation) |
| `Cnj.StripAllDigits` | main.py:26 | a string of digits only is left unchanged |
| `Cnj.StripNoDigits` | main.py:26 | a string without digits becomes empty |
| `Cnj.WordBoundaryInDigits` | main.py:18 | `IsWordBoundary`, the `\b` used by `Digits20At`, holds in a non-empty digit string exactly at its two ends |
| `Cnj.SearchDigits20` | main.py:26-27 | a found index is a match of `\b\d{20}\b` and no earlier index is one; "none" means there is no match anywhere |
| `Cnj.DigitsOnlySearch` | main.py:18 | on a digits-only string, `\b\d{20}\b` matches exactly when the string has length 20, and then at index 0 |
| `Cnj.Punctuate` | main.py:28-36 | the re-punctuated string has length 25; on 20 digits it has the canonical shape, and deleting its separators gives the digits back |
| `Cnj.PunctuateFields` | main.py:30-36 | the six fields of `Punctuate(d)` are the slices of `d` at offsets 7/9/13/14/16/20, in order |
| `Cnj.CanonicalDigits` | main.py:17 | deleting the separators of a canonical string leaves its six digit fields joined in order |
| `Cnj.CanonicalIsPunctuated` | main.py:29-36 | a canonical string has 20 digits, and re-punctuating them rebuilds it (inverse of `Punctuate`) |
| `Cnj.Normalize` | main.py:20-37 | an empty input gives ""; every result is "" or has the canonical shape (length 25, `-` at 7, `.` at 10/15/17/20, digits elsewhere) |
| `Cnj.NormalizeLeftmostPunctuated` | main.py:23-25 | when the input holds a punctuated match, the result is the leftmost one, verbatim |
| `Cnj.NormalizeRawDigits` | main.py:26-36 | without a punctuated match, the result is non-empty iff the input holds exactly 20 digits in total; it is then those digits re-punctuated, and deleting its separators gives the input's digits back |
| `Cnj.CanonicalIsFixedPoint` | main.py:23-25 | a canonical number normalises to itself |
| `Cnj.NormalizeIdempotent` | main.py:20-37 | normalising a result again changes nothing |
| `Cnj.EmptyInputFails` | main.py:21-22 | the empty input gives "" |
| `Cnj.EightLeadingDigitsExample` | main.py:23-25 | with eight digits before the dash, the match starts at index 1 |
| `Cnj.CanonicalExample` | main.py:23-25 | `0001234-56.2020.8.26.0100` is returned unchanged |
| `Cnj.TwentyRawDigitsExample` | main.py:26-36 | `00012345620208260100` becomes `0001234-56.2020.8.26.0100` |
| `Cnj.TwentyOneDigitsFail` | main.py:26-27 | the literal `123456789012345678901` (21 digits, no punctuated match) gives "" |
| `Cnj.NineteenDigitsFail` | main.py:26-27 | the literal `1234567890123456789` (19 digits, no punctuated match) gives "" |
| `Cnj.NoDigitsGiveEmpty` | main.py:23-37 | any text without a single digit gives "": no punctuated match is possible, and nothing is left after stripping |
| `Cnj.NoDigitsFail` | main.py:26-37 | the literal `abc not a number` gives "" |
| `Consulta.EndsWithIsOccurrenceAtEnd` | main.py:59 | `EndsWith` (Python's `endswith`) is an occurrence that finishes at the end of the string, so a string ending in a suffix also `Contains` it (Python's `in`) |
| `Consulta.Tribunal` | main.py:59 | the court is "TJSP" or absent; on a canonical number it is "TJSP" exactly when J (index 16) is 8 and TR (indices 18-19) is 26; on any string it is "TJSP" exactly when the `endswith` or the `in` test holds |
| `Consulta.InfixOnlyAtSegment` | main.py:59 | in a canonical number, `.8.26.` can only occur at index 15 |
| `Consulta.SaoPauloTestOnCanonical` | main.py:59 | on a canonical number the heuristic's test holds iff J is 8 and TR is 26, and the suffix test implies the substring test |
| `Consulta.Consulta` | main.py:50-71 | the body is a `Response`, whose two forms `Rejected` and `Online` carry exactly the keys of main.py:52-56 and 61-71 (`ok` is `Response.Ok`); it is ok iff the number normalises; a failure body carries the invalid-number message and the original input; a success body carries the normalised number, its court, grau "1GRAU", no public URL, no summary, and no parties or movements |
| `Consulta.ConsultaOnlineNumber` | main.py:58-63 | a success body's number is canonical, normalises to itself, and has court "TJSP" iff J is 8 and TR is 26 |
| `Consulta.ConsultaStable` | main.py:50-71 | asking again with the number of a success body gives the same body |
| `Consulta.SaoPauloExample` | main.py:59-63 | `0001234-56.2020.8.26.0100` succeeds unchanged, with court "TJSP" |
| `Consulta.OtherCourtExample` | main.py:59-63 | a federal-court number (segment 4, region 03) succeeds with no court |
| `Consulta.NotANumberExample` | main.py:50-56 | `abc not a number` gives the failure body with the original input |

## Left out

- Unicode character classes: Python's `\d` accepts every Unicode decimal digit and `\w` every Unicode word character. The model takes `\d` as ASCII `'0'..'9'` and `\w` as ASCII letters, digits and `_`. A non-ASCII digit counts as a non-digit here.
- `re.sub(r"\D+", "", s)` deletes maximal runs of non-digits. The model deletes non-digits one character at a time, which leaves the same string.
- The regex engine in general: only the two fixed patterns are modelled. Each has a fixed length, so a match at an index is unique and the leftmost search is a scan over indices.
- The FastAPI application, the CORS middleware, the route decorators and the `Query` parameter handling (main.py:1-15, 39-44): framework wiring with no logic. The query parameter is the function argument `processo`.
- `health` (main.py:39-41): it returns a constant body.
- JSON serialisation of the response: `Response` is a datatype. `None` fields are `Option.None`. The always-empty `partes` and `movimentacoes` lists are `seq<string>`, since main.py gives no element type.
