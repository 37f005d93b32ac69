# IMEI tool: Luhn check digit and CSV line split

A Dafny model of the computational core of `imei_tool.c`, a small console tool
that keeps IMEI prefixes in SQLite and checks 15-digit IMEIs with the Luhn
formula (ISO/IEC 7812-1, Annex B, which is the IMEI check-digit rule of
3GPP TS 23.003, Annex B).

- `luhn.dfy`, module `Luhn`: `luhn_checksum` and `get_correct_checksum` are
  modelled as methods with their index loops, each proved to compute a
  recursive specification function (`WeightedSum`, then `LuhnAccepts` and
  `ExpectedCheckDigit`). `validate_imei` is a function returning a `Verdict`.
  The verdict records both the 0/1 result and the digit the code prints on a
  mismatch. The lemmas prove four things. The two modes agree. The check digit
  never reads the last character. Putting the computed digit in last place
  gives an accepted string, and no other digit does. The code's left-to-right
  parity rule equals the textbook right-to-left Luhn sum.
- `csv_import.dfy`, module `CsvImport`: the `strtok(line, ",")` /
  `strtok(NULL, "\n")` split of `import_prefix_csv` as a pure function on
  indices (`SplitLine`), with an exact description of the lines it keeps. The
  read loop is a method over the lines already read, returning the rows it
  passes on.
- `wrappers.dfy`, module `Wrappers`: `Option`, standing for a NULL token.

A C string is modelled by the characters before its terminator, so `strlen` is
the sequence length. Characters become values by `c - '0'`, as in the code.
C's truncating `%` is written out (`CRem10`). So the checksum functions are
defined on every string, and the lemmas that need digits say so in their
`requires`.

Where the code departs from the usual IMEI rules, the model follows the code:
- `validate_imei` checks the length only, not that the characters are digits.
- The doubling parity is `strlen % 2`, not a fixed rule on 14 positions. For a
  15-character string both give the same positions (the odd ones).
- 490010108561989 is rejected. The code reports 2 as the expected digit
  (`Luhn.RejectedSample`).
- The prefix table has no uniqueness constraint. A repeated line is inserted
  again (`CsvImport.DuplicateLinesImportedTwice`).
- A CSV line is accepted without any length or digit check on the prefix.

## Model

| member | source | states |
|---|---|---|
| `Luhn.DigitValue` | imei_tool.c:97 | `c - '0'` lies in 0..9 exactly when `c` is a digit character |
| `Luhn.DigitChar` | imei_tool.c:138 | `'0' + d` of a value 0..9 is a digit character whose value is `d` |
| `Luhn.CRem10` | imei_tool.c:109 | C's `% 10`: the remainder has the sign of the dividend, is below 10 in magnitude, and differs from it by a multiple of 10 |
| `Luhn.Doubled` | imei_tool.c:99-104 | doubling a digit and subtracting 9 above 9 gives a digit, the sum of the decimal digits of twice the value |
| `Luhn.LuhnChecksum` | imei_tool.c:91-110 | the loop returns true exactly when the weighted sum over the whole string, with parity `strlen % 2`, is divisible by 10 |
| `Luhn.CorrectChecksum` | imei_tool.c:113-139 | the loop returns the check digit computed over the first `length - 1` positions, and it is always '0'..'9' |
| `Luhn.ExpectedCheckDigit` | imei_tool.c:123-138 | the returned character is a digit for every input, including non-digit strings, because `(10 - sum % 10) % 10` lies in 0..9 for any sum |
| `Luhn.ValidateImei` | imei_tool.c:141-156 | any length other than 15 gives the length error; a 15-character string, digits or not, is accepted exactly when the textbook Luhn sum is divisible by 10; a mismatch reports `get_correct_checksum`'s digit, always a digit character |
| `Luhn.WeightedSum` | imei_tool.c:96-107 | the running `sum` after n positions; on digit strings it lies in 0..9n |
| `Luhn.LuhnAccepts` | imei_tool.c:91-110 | `luhn_checksum` accepts exactly when the textbook Luhn sum (rightmost not doubled, every second one leftwards doubled) is divisible by 10 |
| `Luhn.DoubledCountingFromRight` | imei_tool.c:94-99 | position i is doubled exactly when it is an odd distance from the last position; the last position is never doubled |
| `Luhn.WeightedSumPrefix` | imei_tool.c:96-107 | the sum over the first n positions depends only on those n characters |
| `Luhn.FullSumSplits` | imei_tool.c:96-107 | the whole-string sum is the sum of the first `length - 1` positions plus the undoubled last digit |
| `Luhn.ModesAgree` | imei_tool.c:91-139 | for a digit string of any positive length, `luhn_checksum` accepts exactly when the last character equals `get_correct_checksum` |
| `Luhn.CheckDigitIgnoresLast` | imei_tool.c:123 | `get_correct_checksum` does not depend on the last character |
| `Luhn.CompletionAccepted` | imei_tool.c:91-139 | putting digit d last after a digit payload gives an accepted string exactly when d is the computed check digit: the round trip succeeds and every other digit fails |
| `Luhn.ValidateAgreesWithCheckDigit` | imei_tool.c:141-156 | for 15 digits, `validate_imei` accepts exactly when the 15th digit is the computed one, and otherwise reports that digit |
| `Luhn.CorrectionValidates` | imei_tool.c:152-154 | replacing the 15th digit of a rejected 15-digit IMEI by the reported digit makes it pass |
| `Luhn.WeightedIsRightToLeft` | imei_tool.c:94-107 | the left-to-right loop with parity p equals the right-to-left Luhn sum of the prefix it has read |
| `Luhn.AcceptedSample` | imei_tool.c:141-156 | 490154203237518 is accepted and its check digit is 8 |
| `Luhn.RejectedSample` | imei_tool.c:141-156 | 490010108561989 is rejected with expected digit 2; 12345 is a length error |
| `Luhn.NonDigitStringAccepted` | imei_tool.c:141-156 | the 15-character non-digit string >90154203237518 is accepted |
| `Luhn.ValidateImeiDigits` | imei_tool.c:141-156 | with a digit test added, acceptance is exactly: 15 digits whose last is the computed check digit |
| `CsvImport.SkipDelims` | imei_tool.c:48-49 | `strtok` skips delimiters: the result is the first index at or after the start that is not the delimiter |
| `CsvImport.TokenEnd` | imei_tool.c:48-49 | a token ends at the first delimiter at or after its start, or at the end of the line |
| `CsvImport.StrTok` | imei_tool.c:48-49 | `strtok` finds nothing exactly when only delimiters remain; a token is non-empty and free of the delimiter, starts at or after the resume point, and the next call resumes after the token's start |
| `CsvImport.StrTokPlaces` | imei_tool.c:48-49 | a found token starts at the first non-delimiter at or after the resume point, runs to the next delimiter or the end of the line, and the next call resumes just past that delimiter, or at the end |
| `CsvImport.StrTokAt` | imei_tool.c:48-49 | conversely, a run of non-delimiters preceded only by delimiters and followed by a delimiter or the end is exactly the token `strtok` returns |
| `CsvImport.SplitLine` | imei_tool.c:48-50 | a kept line yields a non-empty prefix without ',' and a non-empty model without a newline, which together with the comma between them fit in the line |
| `CsvImport.SplitLineAt` | imei_tool.c:48-50 | a line with commas, a prefix run, a comma, newlines and a model run ended by a newline or the end is kept, with that prefix and model |
| `CsvImport.KeptPositions` | imei_tool.c:48-50 | every kept line has such positions |
| `CsvImport.SplitLineOfLayout` | imei_tool.c:48-50 | every line of the form commas, prefix, comma, newlines, model, then end or newline is kept and yields exactly that prefix and model |
| `CsvImport.SplitLineShape` | imei_tool.c:48-50 | every kept line has that form around the prefix and model it yields |
| `CsvImport.SkippedSamples` | imei_tool.c:48-50 | "12345678,\n" and "abc\n" are skipped |
| `CsvImport.KeptSample` | imei_tool.c:48-50 | "35209900,Pixel 7\n" yields prefix 35209900 and model Pixel 7 |
| `CsvImport.KeptSampleWithCommas` | imei_tool.c:48-50 | leading commas are dropped and later commas stay in the model |
| `CsvImport.Imports` | imei_tool.c:47-53 | the read loop passes on at most one row per line |
| `CsvImport.ImportPrefixCsv` | imei_tool.c:47-53 | the read loop passes on, in order, the split of every line that splits |
| `CsvImport.ImportsAppend` | imei_tool.c:47-53 | importing two runs of lines passes on the rows of the first, then those of the second |
| `CsvImport.ImportsFromLines` | imei_tool.c:47-53 | a row is passed on exactly when some line splits into it |
| `CsvImport.DuplicateLinesImportedTwice` | imei_tool.c:50-51 | two identical lines both reach `import_prefix`; nothing is deduplicated |

## Left out

- `main`, `menu` and the `scanf`/`printf` loop (imei_tool.c:9-15, 158-219): console I/O. The `scanf("%s")` into a 16-byte buffer, which overflows on long input, is not modelled.
- `import_prefix` and every SQLite call, including table creation and `ORDER BY RANDOM()` prefix selection: a foreign library. The model stops at the rows handed to `import_prefix`.
- `generate_imei`'s digit handling (imei_tool.c:74-84). It reads the terminator and uninitialised bytes after an 8-digit prefix, uses a plain digit sum rather than Luhn, and writes past the terminator, so there is no defined behaviour to model.
- File handling in `import_prefix_csv`: `fopen`, and `fgets` cutting lines longer than 511 characters into several chunks. `CsvImport.ImportPrefixCsv` takes the chunks as its lines.
- The `corrected_imei` buffer in `get_correct_checksum` (imei_tool.c:117-121): it is written but never read.
- The `printf` messages of `validate_imei`. They are represented by the `Verdict` value, which carries the printed expected digit.
- Bytes outside ASCII. Dafny characters are Unicode scalar values, so a signed-`char` byte above 127 (negative in C) is not modelled.
- 32-bit `int` overflow of `sum`. It needs strings of millions of characters: about 238 million digits, or about 19 million non-digit ASCII characters, since `c - '0'` of a character up to 127 doubles to at most 149. The tool's behaviour is defined only up to 15 characters anyway: `scanf("%s", imei)` (imei_tool.c:201) reads a word of any length into `char imei[16]` (imei_tool.c:175), which longer input overflows.
- `CsvImport.StrTok`: its own `ensures` do not say where the token lies. That is stated by the lemmas `CsvImport.StrTokPlaces` and `CsvImport.StrTokAt`, kept apart so that the proofs about `SplitLine` do not carry it.
- `strtok`'s hidden static position is an explicit index (`Token.next`), and its writing of `'\0'` into the line is not modelled. The second call starts after the overwritten delimiter, so the write never affects the result.

## Findings

| source | as written | input that shows it | evidently intended | confidence | as-written member | corrected member |
|---|---|---|---|---|---|---|
| imei_tool.c:141-156 | `validate_imei` checks only the length and the Luhn sum of `c - '0'`, so non-digit characters are accepted | `>90154203237518` ('>' is '4' + 10 at an undoubled position) is accepted | reject strings that are not 15 digits, as the length message ("should be 15 digits") says | medium, not executed | `Luhn.NonDigitStringAccepted` | `Luhn.ValidateImeiDigits` |
