# strbuff: a fixed-capacity C string buffer, modelled in Dafny

`template.c` defines `struct strbuff`, which holds a capacity `size` and a
NUL-terminated `char *str`. It also defines three operations on it:

- `str_malloc` allocates a buffer and leaves it holding the empty string.
- `str_copy` is a bounds-checked `strcpy`: it replaces the content.
- `str_cat` is a bounds-checked `strcat`: it appends to the content.

When a size check fails, the operation renders a diagnostic. The diagnostic
is printed to standard output when no log buffer is given. Otherwise one
nested `str_cat` with no log appends it to the log buffer. A self-test
suite (`test_all` with three test cases) exercises the operations at tight
capacities. When all three tests pass, it appends a summary line to the log.

The model has two layers.

- **`StrSpec`** states every operation as a pure step on values. A buffer is
  the value `Str(size, content)`. A step gives the return code, the new
  destination, the new log and the text printed to stdout. The lemmas beside
  the steps state what the C code promises. These cover the success and
  overflow paths of each operation, the diagnostic routing, the boundary
  behaviour of the size checks and the short-circuiting of the test runner.
- **`Buffers`** and **`SelfTest`** are the imperative model. `StrBuff` is a
  class over an `array<char>` with a ghost `content`. `Valid()` ties the
  content to the array: the content comes first, then a `'\0'`, and both fit
  in `size`. `strlen`, `strcmp` and `memcpy` are loops. `Malloc`, `Copy`,
  `Cat`, the three tests and `TestAll` change buffers in place. Each one is
  proved to take exactly the step that `StrSpec` gives for it.

Other modules:

- **`Decimal`** renders the `%lu` and `%d` numbers.
- **`Messages`** holds the three diagnostic texts. It also proves that they
  fit in the stack buffers `sprintf` writes them into.

Stdout is the ghost string `Stdout.text`, and every `printf` appends to it.
Whether `malloc` returns storage comes from the environment. It is a
`granted` parameter of `Malloc` and of each test. For the suite it is a
`Grants` value with one answer per test.

The size checks are modelled exactly as written, `sourcelen > size` and
`sourcelen > destfree`. In one case a check passes but the `memcpy` of
`sourcelen + 1` chars would write past the allocation. In that case the
model returns the extra code `OutOfBounds`, which is not a value of
`td_rc`, and does not write. The same applies to a granted `malloc(0)`,
since storing the terminator would then write out of bounds. See
"## Findings". Beside the steps as written, `StrSpec` also states the
corrected steps `CopyStepIntended` and `CatStepIntended`, which refuse a
source whose terminator would not fit.

Three details of `template.c` matter:

- The allocation diagnostic has a space before its newline.
- A refused `str_cat` with a log returns whatever code the nested append
  returns. That code is `SUCCESS` when the diagnostic fits in the log.
- The nested append is made with no log. Diagnostic routing therefore
  recurses at most one level deep.

## Model

| member | source | states |
|---|---|---|
| Decimal.NatToDecimal | template.c:82-83 | `%lu` rendering: at least one char, all decimal digits, and no leading zero except for 0 itself |
| Decimal.DecimalRoundTrip | template.c:148 | reading the rendered digits back gives the number, so the rendering loses nothing |
| Decimal.DecimalLength | template.c:16 | a number below 10^k takes at most k digits |
| Decimal.DecimalLength64 | template.c:16 | a 64-bit `unsigned long` takes at most 20 digits |
| Messages.CopyMessage | template.c:17-18 | the copy diagnostic contains no NUL; its length is the format's length with each `%lu` replaced by the digits of its argument |
| Messages.CatMessage | template.c:20-21 | the same for the cat diagnostic |
| Messages.MallocMessage | template.c:82-83 | the same for "malloc failed : size requested <n> \n", trailing space included |
| Messages.CopyMessageFits | template.c:19 | for 64-bit arguments, the copy diagnostic and its terminator fit in ERR_MES_STR_COPY_LEN chars |
| Messages.CatMessageFits | template.c:22 | for 64-bit arguments, the cat diagnostic and its terminator fit in ERR_MES_STR_CAT_LEN chars |
| Messages.MallocMessageFits | template.c:81-83 | for a 64-bit size, the allocation diagnostic fits in `errmes[100]` |
| Messages.CountFits | template.c:142 | any `int` test count, rendered with `%d`, fits in `rc_str[20]` |
| StrSpec.CatStep | template.c:114-137 | `str_cat` keeps both buffers well formed, with their sizes and the presence of a log unchanged |
| StrSpec.Diagnose | template.c:10-11 | routing a diagnostic with CAT keeps the log well formed and its size unchanged |
| StrSpec.CopyStep | template.c:95-112 | `str_copy` keeps both buffers well formed, with their sizes unchanged |
| StrSpec.AllocReport | template.c:74-93 | `str_malloc` keeps the log well formed, with its size unchanged |
| StrSpec.CopyReplaces | template.c:110-111 | a source shorter than `size` becomes the whole content: SUCCESS, size unchanged, nothing logged or printed |
| StrSpec.CopyOverflow | template.c:99-108 | a source longer than `size` leaves dest untouched. With no log: ERR_STR_COPY and the copy diagnostic printed. With a log that has room: ERR_STR_COPY and the diagnostic appended. With a log whose free space equals the diagnostic's length: OutOfBounds, log unchanged. With a log that refuses it: ERR_STR_CAT from CAT, and the cat diagnostic printed |
| StrSpec.CopySucceedsIffFits | template.c:99-111 | `str_copy` returns SUCCESS if and only if the source and its terminator fit in `size` |
| StrSpec.CopyRefused | template.c:99 | the size check of `str_copy` never refuses a copy that fits, and what it lets through would fit in one more char |
| StrSpec.CopyGuardAdmitsOverrun | template.c:99 | the size check as written lets a copy that does not fit through exactly when `sourcelen == size` |
| StrSpec.CopyOverrunWitness | template.c:110 | "abcd" into a 4-char buffer passes the size check, and the model reports OutOfBounds |
| StrSpec.CatAppends | template.c:133-134 | a source shorter than the free space is appended: SUCCESS, the old chars kept as a prefix, size unchanged, nothing logged |
| StrSpec.CatOverflow | template.c:120-131 | a source longer than the free space leaves dest untouched. With no log: ERR_STR_CAT and the diagnostic printed. With a log: the code, log and output of the nested append |
| StrSpec.CatOverflowSwallowed | template.c:127-131 | when the log has room for the diagnostic, a refused append returns SUCCESS, and the overflow shows only in the log |
| StrSpec.CatSucceedsIff | template.c:117-136 | `str_cat` returns SUCCESS if and only if the source fits after the content, or the log absorbed the diagnostic of a refusal |
| StrSpec.CatAppendsIffFits | template.c:117-133 | the content grows by the source if and only if the source and its terminator fit after it; otherwise dest is unchanged |
| StrSpec.CatRefused | template.c:120 | the size check of `str_cat` never refuses an append that fits, and what it lets through would fit in one more char |
| StrSpec.CatGuardAdmitsOverrun | template.c:120 | the size check as written lets an append that does not fit through exactly when `sourcelen == destfree` |
| StrSpec.CatOverrunWitness | template.c:133 | "bar" after "foo" in a 6-char buffer passes the size check, yet the terminator would land at index 6, and the model reports OutOfBounds |
| StrSpec.CatWithoutLogPrintsOnce | template.c:127-131 | the nested append (no log) returns SUCCESS, ERR_STR_CAT or OutOfBounds. It prints nothing, or exactly its own diagnostic on ERR_STR_CAT, and never recurses again |
| StrSpec.AllocGranted | template.c:89-92 | a granted request of at least one char returns SUCCESS and logs nothing |
| StrSpec.AllocRefused | template.c:77-88 | a refused request never returns SUCCESS. With no log: ERR_STR_MALLOC and the diagnostic printed. With a log that has room: ERR_STR_MALLOC and the diagnostic appended. With a log whose free space equals the diagnostic's length: OutOfBounds, log unchanged. With a log that refuses it: ERR_STR_CAT, the cat diagnostic printed, log unchanged |
| StrSpec.CatStepIntended | template.c:114-137 | `str_cat` with the corrected size check `sourcelen >= destfree`: returns only SUCCESS or ERR_STR_CAT, never OutOfBounds, and dest either stays as it was or gains the source |
| StrSpec.CopyStepIntended | template.c:95-112 | `str_copy` with the corrected size check `sourcelen >= size`: returns only SUCCESS, ERR_STR_COPY or ERR_STR_CAT, never OutOfBounds |
| StrSpec.CopyIntendedSafe | template.c:99-111 | the corrected `str_copy` succeeds exactly when the source and its terminator fit, and then the source is the whole content; otherwise dest is untouched |
| StrSpec.CatIntendedSafe | template.c:120-134 | the corrected `str_cat` changes dest exactly when the source and its terminator fit after the content, and then appends it; without a log, SUCCESS means exactly that |
| StrSpec.CatIntendedAgrees | template.c:120 | away from `sourcelen == destfree`, both for the source and for the nested append of its diagnostic, the corrected `str_cat` takes the same step as the one as written |
| StrSpec.CatIntendedBoundary | template.c:120 | at `sourcelen == destfree` the step as written reports OutOfBounds, while the corrected one leaves dest untouched and routes the diagnostic for a source of `destfree` chars and `destfree` free |
| StrSpec.CopyIntendedAgrees | template.c:99 | away from `sourcelen == size`, both for the source and for the nested append of its diagnostic, the corrected `str_copy` takes the same step as the one as written |
| StrSpec.CopyIntendedBoundary | template.c:99 | at `sourcelen == size` the step as written reports OutOfBounds, while the corrected one fails, leaves dest untouched and routes the diagnostic for a source of `size` chars into a buffer of `size` |
| StrSpec.SummaryParts | template.c:148-151 | the summary is three CAT arguments, each a C string with no NUL inside |
| StrSpec.CatAll | template.c:149-151 | a run of CATs keeps the log well formed, with its size unchanged |
| StrSpec.CatAllStep | template.c:10-11 | CAT returns the first failing append's report, and a successful append prints nothing |
| StrSpec.CatAllAppends | template.c:149-151 | appends whose total length and terminator fit all succeed, and extend the log by their concatenation |
| StrSpec.CatAllSuccess | template.c:149-152 | a run of CATs that returns SUCCESS has appended every part and printed nothing |
| StrSpec.SummaryText | template.c:148-151 | the three CAT arguments concatenate to the summary line "\n3 tests completed successfully\n" |
| StrSpec.SuiteReport | template.c:139-153 | the suite's outcome keeps the log well formed, with its size unchanged |
| StrSpec.SuiteAllGranted | template.c:145-151 | with every allocation granted, all three tests pass and the outcome is that of appending the summary |
| StrSpec.SuiteSuccessAppendsSummary | template.c:148-152 | the suite returns SUCCESS only after appending exactly the summary line, with nothing else logged or printed |
| StrSpec.SuitePasses | template.c:145-152 | with every allocation granted and room for the summary, the suite returns SUCCESS |
| StrSpec.SuiteShortCircuits | template.c:12-13 | TESTCASE stops at the first refused allocation. Its report is the whole outcome, and the later tests and the summary are skipped |
| StrSpec.SuiteCodes | template.c:139-203 | the suite returns only SUCCESS, ERR_STR_MALLOC, ERR_STR_CAT or OutOfBounds, never ERR_STR_COPY or ERR_RC_NOT_SET |
| Buffers.StrBuff.constructor | template.c:89-91 | a fresh array of `bufsize` chars holding the empty string, with `size == bufsize` |
| Buffers.StrBuff.Length | template.c:117 | `strlen(str)` returns exactly the length of the content |
| Buffers.StrBuff.Equals | template.c:173 | `strcmp(str, s) == 0` holds exactly when the content equals `s` |
| Buffers.MemCopy | template.c:110 | the chars from `offset` on are replaced by the source, and every other char is unchanged |
| Buffers.StrBuff.Copy | template.c:95-112 | takes the CopyStep for the old views, sizes and arrays unchanged. When it does not succeed, dest's chars are untouched |
| Buffers.StrBuff.Cat | template.c:114-137 | takes the CatStep for the old views, with the diagnostic appended by a recursive call that has no log. When the append does not fit, dest's chars are untouched |
| Buffers.Malloc | template.c:74-93 | takes the AllocReport step. It returns a fresh valid empty buffer of `bufsize` chars exactly when the code is SUCCESS |
| SelfTest.TestStrMalloc | template.c:155-165 | returns what the allocation of 5 chars reports; the size check always passes |
| SelfTest.TestStrCopy | template.c:167-184 | returns what the allocation of 4 chars reports. "foo" and then "bar" always copy and compare equal |
| SelfTest.TestStrCat | template.c:186-203 | returns what the allocation of 7 chars reports. "foo" and then "bar" always append to "foobar" and compare equal |
| SelfTest.CatSummary | template.c:149-151 | the three CATs of the summary take exactly the CatAll step for the summary parts: code, log and output |
| SelfTest.TestAll | template.c:139-153 | increments `testcount` and uses CAT, and its result is exactly SuiteReport: code, log and output |

## Left out

- `main` (template.c:56-72) is not modelled. It parses arguments, prints the
  macro sizes and the final log, and frees the log.
- `free` is not modelled. Storage is garbage collected, so releasing a
  buffer is a no-op.
- `malloc` is reduced to a yes/no answer, the `granted` parameter. The
  model does not cover how much memory is available.
- `printf` is modelled only as text appended to `Stdout.text`. No real
  output is produced.
- `sprintf` is not modelled as a formatter. Each diagnostic is built
  directly from its pieces and `NatToDecimal`.
- `size_t` and `unsigned long` are unbounded naturals. Their width matters
  only for the stack-buffer sizing, which is proved for 64-bit values.
  `dest->size - destlen` cannot wrap in the model, because `Valid()` keeps
  `destlen < size`.
- The model stops at a write past the allocation and returns
  `OutOfBounds`. It does not cover what C's undefined behaviour would do next.
- Buffers.StrBuff.Copy: requires the log to be a different buffer with a different array from the destination. The log is a separate buffer that only collects diagnostics, so the case where both are the same buffer is not modelled.
- Buffers.StrBuff.Cat: requires the log to be a different buffer with a different array from the destination, for the same reason.
- Buffers.Malloc: returns the new buffer rather than filling in a caller's struct. The `size` that C leaves unset on failure is therefore not observable.
- The corrected steps `StrSpec.CopyStepIntended` and `StrSpec.CatStepIntended` are stated on values only. `Buffers` and `SelfTest` keep the size checks as `template.c` writes them, since they model that code. The three tests never put their own buffers on the boundary.
- Buffers.StrBuff.Equals: models only whether `strcmp` returns zero. That is all the tests use; the sign of the result is not modelled.

## Findings

| source | as written | input that shows it | evidently intended | confidence | as-written member | corrected member |
|---|---|---|---|---|---|---|
| template.c:99 | `sourcelen > dest->size` refuses only sources longer than the allocation, while template.c:110 copies `sourcelen + 1` chars | size 4, source "abcd": the size check passes and 5 chars go into 4 | refuse when `sourcelen >= size` | high; not executed | StrSpec.CopyOverrunWitness | StrSpec.CopyStepIntended |
| template.c:120 | `sourcelen > destfree` refuses only sources longer than the free space, while template.c:133 copies `sourcelen + 1` chars at `destlen` | size 6 holding "foo", source "bar": the size check passes and the terminator lands at index 6 | refuse when `sourcelen >= destfree` | high; not executed | StrSpec.CatOverrunWitness | StrSpec.CatStepIntended |
