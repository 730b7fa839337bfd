# sqli `In`: placeholder expansion, modelled in Dafny

Package `sqli` rewrites a SQL query so that a slice argument can fill an
`IN (...)` list. `In(query, args...)` works in three steps:

- It scans the query with `argScanner`, a small lexer with two cursors.
- It copies each literal run unchanged.
- It pairs every placeholder (`?`, or `$` and its digits) with the next
  caller argument. The `argBuffer` then writes one marker per value:
  - a slice argument gets one marker per element, separated by `", "`;
  - any other argument gets a single marker.

Numbered markers are renumbered globally: `$k` uses the running total of
arguments written so far, so the digits in the query are discarded. A
placeholder with no argument left is dropped, and the rest of the query is
still copied. A NUL byte is the scanner's sentinel, so scanning stops at the
first NUL.

The project has one module per piece of the source:

- `text.dfy` (`Text`) holds the shared vocabulary:
  - bytes, and the constants the scanner compares against;
  - `Decimal`, the `%d` rendering of a natural number, and `ValueOf`, its reading;
  - `Count`, the number of `$`/`?` marker bytes in a text;
  - `NumberedFrom`, which says that every `$` in a text is followed by the
    numeral of its ordinal among all marker bytes;
  - `ExactlyNumberedFrom`, which also says that each such numeral is followed
    by a non-digit or the end, so that it reads back as the longest digit run.
- `scanner.dfy` (`Scanner`) holds the `argScanner` as the class
  `ArgScanner`, with the fields `start` and `pos` and the methods `Scan`,
  `ScanPlaceholder`, `ScanQuery` and `Next`. They are proved against
  specification functions:
  - `ScanPlaceholder` and `ScanQuery` against `DigitsEnd` and `QueryEnd`,
    the ends of the longest digit run and the longest literal run;
  - `Scan` against `NextToken`, one scan from a position.

  `Lex`, all the tokens from a position to the end, is what the loop of `In`
  is proved against. `Scanned` is the state `Scan` leaves behind: the cursor
  pair spans the token `NextToken` gives from `start`. `String` relies on it
  to say that its text is a well-shaped token.
- `buffer.dfy` (`Buffer`) holds the `argBuffer` as the class `ArgBuffer`.
  - Its fields are `out`, the text, and `args`, the flattened arguments.
  - Its methods are `WriteString`, `WriteOneArg` (the source's `writeArg`)
    and `WriteArg`.
  - They are proved against `Marker` and `Markers`.
  - The `Arg` datatype stands in for the reflection on the argument's kind.
- `rewriter.dfy` (`Rewriter`) holds `In` as a loop over the scanner. It is
  proved against `Expand`, the rewriting defined on token lists. It also
  has the lemmas about that rewriting:
  - parity: one marker per output argument;
  - gapless numbering;
  - argument pairing;
  - dropped placeholders;
  - NUL as the end of input.
- `scenarios.dfy` (`Scenarios`) holds the package's documented examples.
  They are proved for any literal text around the placeholders.

## Model

| member | source | states |
|---|---|---|
| Text.Decimal | in.go:64 | the `%d` numeral is non-empty, made only of the digits '0'..'9', and starts with '0' only for zero |
| Text.DecimalRoundTrip | in.go:64 | reading back the numeral written for n gives n |
| Text.DecimalInjective | in.go:64 | distinct argument counts are written as distinct numerals |
| Text.IsDigit | in.go:112 | `unicode.IsDigit` of a byte holds for '0'..'9'; Text.Decimal and Scanner.DigitsEnd state what depends on it |
| Text.Count | in.go:61-68 | the number of marker bytes of a text; Text.CountAppend and Text.CountZero state its properties |
| Text.CountAppend | in.go:24 | marker bytes of a concatenation add up, so appending to the buffer only adds markers |
| Text.CountZero | in.go:129-131 | a text has no marker byte exactly when its count is zero |
| Text.NumberedAppend | in.go:61-68 | gapless numbering carries across concatenation when the second part continues from the first part's marker count |
| Text.NumberedPlain | in.go:129-131 | a text without '$' or '?' (any literal run) has no markers and keeps the numbering |
| Text.ExactlyNumberedAppend | in.go:24 | exact numbering carries across a concatenation when the second part continues the count and does not start with a digit |
| Text.ExactlyNumberedPlain | in.go:129-131 | a text without '$' or '?' is exactly numbered from any base |
| Scanner.IsQuery | in.go:129-131 | a literal byte is any byte but '$', '?' and NUL; Scanner.QueryEnd and Scanner.NextTokenShape state what depends on it |
| Scanner.At | in.go:134-139 | the byte at a position, or the sentinel past the end; Scanner.ArgScanner.Peek and Scanner.AtPrefix state its properties |
| Scanner.Limit | in.go:133-139 | scanning stops at the first NUL byte or at the end: no NUL before it, a NUL at it |
| Scanner.DigitsEnd | in.go:111-116 | the digits after '$' form the longest run of '0'..'9' |
| Scanner.QueryEnd | in.go:120-131 | a literal run is the longest run without '$', '?' or NUL |
| Scanner.NextToken | in.go:95-107 | a scan returns EOF exactly at the limit and then leaves the cursor in place; any other scan advances at least one byte without passing the limit |
| Scanner.NextTokenShape | in.go:95-131 | every token is well shaped ('?' alone, '$' plus digits, or a non-empty run without '$', '?' and NUL), and literal runs and digit runs are maximal |
| Scanner.Lex | in.go:17-22 | the tokens of repeated scans up to EOF; Scanner.LexShapes, Scanner.LexPartition, Scanner.LexWhole and Scanner.LexStopsAtNul state its properties |
| Scanner.EofSticky | in.go:93-99 | once a scan returns EOF, the next scan from the same cursor returns EOF again |
| Scanner.QueryEndAt | in.go:120-125 | a literal run that cannot go on is exactly where scanQuery stops |
| Scanner.LexShapes | in.go:95-131 | every token of a whole scan is well shaped |
| Scanner.LexPartition | in.go:86-149 | the tokens' texts, concatenated in order, are the query from the cursor up to the limit |
| Scanner.LexWhole | in.go:86-149 | the tokens of a query reproduce it up to its first NUL, and the whole query when it has none |
| Scanner.LexStopsAtNul | in.go:134-148 | a query scans to the same tokens as its part before the first NUL |
| Scanner.LexNoDigitStarts | in.go:95-131 | only a token right after a '?' can start with a digit: a literal run stops only at '$', '?' or the end, and a '$' takes all the digits after it |
| Scanner.ArgScanner.String | in.go:86-91 | after a scan, the text is the query between start and pos, and when the scan was not EOF it is a well-shaped token of the kind the scan returned |
| Scanner.ArgScanner.Peek | in.go:134-139 | peek returns the sentinel exactly at the limit (end of query or a NUL byte), and the byte at pos otherwise |
| Scanner.ArgScanner.Next | in.go:143-149 | next returns the peeked byte and advances pos by one unless it is the sentinel |
| Scanner.ArgScanner.ScanPlaceholder | in.go:111-116 | the loop stops at the end of the maximal digit run |
| Scanner.ArgScanner.ScanQuery | in.go:120-125 | the loop stops at the end of the maximal literal run |
| Scanner.ArgScanner.Scan | in.go:95-107 | scan sets start to the old pos and returns the token and the cursor that NextToken specifies; the cursor stays within bounds, and the cursor pair spans that token, as String needs |
| Buffer.Marker | in.go:62-67 | the text writeArg writes for the k-th argument; Buffer.MarkerShape states its properties |
| Buffer.Markers | in.go:48-53 | the text the slice loop writes for n values; Buffer.MarkersNumbered, Buffer.MarkersExactlyNumbered and Buffer.MarkersAppend state its properties |
| Buffer.Elems | in.go:46-56 | the values one argument contributes: a slice's elements or the argument itself; Buffer.ArgBuffer.WriteArg states its use |
| Buffer.Flatten | in.go:46-56 | the values of a list of arguments, in order; Rewriter.ExpandArgs and Rewriter.FlattenScalars state its properties |
| Buffer.MarkerShape | in.go:61-68 | a marker is one marker byte: '$' and the numeral of k (read back as k, and followed by nothing) for a '$' placeholder, '?' otherwise |
| Buffer.MarkersNumbered | in.go:45-68 | the markers for n values hold n marker bytes and continue the numbering from the arguments already written |
| Buffer.MarkersExactlyNumbered | in.go:45-68 | the markers for n values are exactly numbered (each numeral ends at ", " or at the end) and start with a marker byte |
| Buffer.MarkersAppend | in.go:48-53 | one more loop step (separator before every marker but the first, then a marker) extends the markers for n values to n + 1 |
| Buffer.ArgBuffer.WriteString | in.go:24 | the text is extended by exactly s |
| Buffer.ArgBuffer.WriteOneArg | in.go:61-68 | writeArg appends exactly one argument and one marker numbered by the new argument count; nothing else changes |
| Buffer.ArgBuffer.WriteArg | in.go:45-57 | a slice appends its elements in order and their markers separated by ", " (nothing for an empty slice); a scalar appends one argument and one marker |
| Rewriter.ExpandFrom | in.go:17-33 | the rewriting of a token list onto a buffer; the Rewriter lemmas below state its properties |
| Rewriter.Expand | in.go:17-33 | what In returns; Rewriter.ExpandNumbered, Rewriter.ExpandExactlyNumbered, Rewriter.ExpandArgs, Rewriter.ExpandNoArgs and Rewriter.ExpandStopsAtNul state its properties |
| Rewriter.In | in.go:13-34 | In returns the rewriting Expand specifies, with exactly one marker byte per output argument and gapless `$k` numbering, exact when no '?' is directly followed by a digit |
| Rewriter.ExpandFromNumbered | in.go:17-33 | parity and gapless numbering hold after every token, given that they hold before it |
| Rewriter.ExpandNumbered | in.go:17-33 | the rewritten query has one '$' or '?' per output argument, and each '$' is followed by the numeral of its position among all markers |
| Rewriter.ExpandFromExact | in.go:17-33 | exact numbering holds after every token, given that it holds before it and no later token starts with a digit |
| Rewriter.ExpandExactlyNumbered | in.go:17-33 | when no '?' of the query is directly followed by a digit (in particular when it has no '?'), each '$' of the output is followed by the numeral of its position and then by a non-digit or the end |
| Rewriter.ExpandFromArgs | in.go:25-30 | the output arguments extend the written ones with the flattened arguments that found a placeholder |
| Rewriter.ExpandArgs | in.go:25-30 | arguments pair with placeholders in order: the output arguments are the flattening of the first min(#args, #placeholders) arguments |
| Rewriter.ExpandScalars | in.go:29-30 | with scalar arguments and enough placeholders, the output arguments are the arguments' values, in order |
| Rewriter.FlattenScalars | in.go:56 | flattening scalars keeps their number and order |
| Rewriter.ExpandFromNoArgs | in.go:25-28 | with no argument left, placeholders are dropped and the literal runs are still copied |
| Rewriter.ExpandNoArgs | in.go:25-28 | without arguments, the output is the query's literal runs in order and the argument list is empty |
| Rewriter.ExpandStopsAtNul | in.go:130-138 | whatever follows the first NUL is neither copied nor paired with an argument |
| Scenarios.LiteralToken | in.go:120-131 | a scan over a literal run that cannot go on returns exactly that run |
| Scenarios.PlaceholderToken | in.go:97-116 | a scan over '?' or over '$' and one digit returns that placeholder |
| Scenarios.JoinTokens | in.go:95-131 | `$1?5` scans to a numbered placeholder, a '?' and the literal `5` |
| Scenarios.DroppedPlaceholderJoins | in.go:25-29 | `$1?5` with one argument becomes `$15`: the numbering of ExpandNumbered holds, exact numbering does not |
| Scenarios.SliceNumbered | in_test.go:13-14 | `IN ($1)` with the slice [1, 2, 3] becomes `IN ($1, $2, $3)` with the arguments 1, 2, 3 |
| Scenarios.SliceUnnumbered | in_test.go:17-18 | `IN (?)` with the slice [1, 2, 3] becomes `IN (?, ?, ?)` with the arguments 1, 2, 3 |
| Scenarios.RunningNumbers | in_test.go:21-22 | `IN ($1) AND id = $2` with [1, 2, 3] and 4 becomes `IN ($1, $2, $3) AND id = $4` with the arguments 1, 2, 3, 4 |
| Scenarios.MissingArgument | in_test.go:25-26 | `IN ($1)` with no argument becomes `IN ()` with no arguments |

## Left out

- db.go and db_test.go: `Open`, `Query`, `QueryIn` and `QueryRow` wrap `database/sql`. They are I/O over a foreign library, and the only logic they add is the call to `In`.
- Reflection is not modelled. The closed datatype `Arg` (a slice, or anything else) stands in for `reflect.TypeOf(arg).Kind()`.
  - Any Go slice counts as a slice, including `[]byte`.
  - Slice elements are not expanded further.
- A `nil` argument makes the source panic in reflection. `Arg` has no such value, so that case is not modelled.
- `bytes.Buffer` and `fmt.Sprintf` are modelled only by their effect: a byte sequence that is appended to, and `Decimal` for `%d`.
- Strings are byte sequences. Scanning is byte by byte, as in the source. `unicode.IsDigit` on a byte widened to a rune is true exactly for '0'..'9', and the model uses that range.
- The documented examples in `Scenarios` are stated for any literal text before, between and after the placeholders. The text must be literal and must not start with a digit right after a `$` placeholder. They do not evaluate the example strings byte by byte; the example strings are one instance of these lemmas.
- The `equal` helper in in_test.go is test scaffolding.
- Rewriter.ExpandNumbered: for every query, gapless numbering is stated as a prefix: every `$` is followed by the numeral of its position, and then possibly by further digits. A dropped `?` can let a following digit join a marker: `$1?5` with one argument becomes `$15` (Scenarios.DroppedPlaceholderJoins). Rewriter.ExpandExactlyNumbered proves that the numeral ends there whenever no `?` is directly followed by a digit.
