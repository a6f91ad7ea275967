/** What str_malloc, str_copy, str_cat and test_all do, stated on values:
    a buffer is seen as its capacity and the C string it holds, and each
    operation as a step from the old views to the new ones, the return
    code and the text it prints to standard output. The methods of module
    Buffers and SelfTest are proved to take exactly these steps. */
module StrSpec {
  import opened Decimal
  import opened Messages

  /** td_rc, plus OutOfBounds: not a value of the C enum but the model's
      verdict where the C code would write past the end of the allocation. */
  datatype Rc = Success | ErrStrCopy | ErrStrCat | ErrStrMalloc | ErrRcNotSet | OutOfBounds

  datatype Option<T> = None | Some(value: T)

  /** The view of a struct strbuff: `size` chars allocated, holding the C string `content`. */
  datatype Str = Str(size: nat, content: string)

  /** The content and its terminator fit inside the allocation. */
  predicate Wf(b: Str) {
    |b.content| < b.size && NoNul(b.content)
  }

  predicate WfLog(log: Option<Str>) {
    log.Some? ==> Wf(log.value)
  }

  /** A memcpy of sourcelen chars and the terminator, starting at offset, stays inside size chars. */
  predicate WriteFits(offset: nat, sourcelen: nat, size: nat) {
    offset + sourcelen + 1 <= size
  }

  /** The overflow test of str_copy as written: refuse only a source longer
      than the whole allocation. It never refuses a copy that fits, and what
      it lets through would fit in one char more. */
  function CopyRefused(sourcelen: nat, size: nat): (r: bool)
    ensures r ==> !WriteFits(0, sourcelen, size)
    ensures !r ==> WriteFits(0, sourcelen, size + 1)
  {
    sourcelen > size
  }

  /** The overflow test of str_cat as written: refuse only a source longer
      than the free space. It never refuses an append that fits, and what it
      lets through would fit in one char more. */
  function CatRefused(sourcelen: nat, destfree: nat): (r: bool)
    ensures r ==> !WriteFits(0, sourcelen, destfree)
    ensures !r ==> WriteFits(0, sourcelen, destfree + 1)
  {
    sourcelen > destfree
  }

  /** One str_copy or str_cat call: its code, the new destination and log, the text printed. */
  datatype Step = Step(rc: Rc, dest: Str, log: Option<Str>, printed: string)

  /** A call that creates no buffer of its own: its code, the new log, the text printed. */
  datatype Report = Report(rc: Rc, log: Option<Str>, printed: string)

  /** str_cat(dest, source, logbuf). On overflow the diagnostic goes to stdout
      when there is no log, otherwise through a nested str_cat into the log
      whose code becomes the result. */
  function CatStep(d: Str, src: string, log: Option<Str>): (r: Step)
    requires Wf(d) && NoNul(src) && WfLog(log)
    ensures Wf(r.dest) && WfLog(r.log) && r.log.Some? == log.Some?
    ensures r.log.Some? ==> r.log.value.size == log.value.size
    ensures r.dest.size == d.size
    decreases log.Some?
  {
    var destlen := |d.content|;
    var destfree := d.size - destlen;
    if CatRefused(|src|, destfree) then
      var msg := CatMessage(|src|, destfree);
      match log
      case None => Step(ErrStrCat, d, None, msg)
      case Some(l) =>
        var inner := CatStep(l, msg, None);
        Step(inner.rc, d, Some(inner.dest), inner.printed)
    else if !WriteFits(destlen, |src|, d.size) then
      Step(OutOfBounds, d, log, "")
    else
      Step(Success, Str(d.size, d.content + src), log, "")
  }

  /** The CAT macro applied to a diagnostic, followed by `return code`:
      print it when there is no log; otherwise append it to the log and
      return the append's code instead when the append fails. */
  function Diagnose(code: Rc, msg: string, log: Option<Str>): (r: Report)
    requires NoNul(msg) && WfLog(log)
    ensures WfLog(r.log) && r.log.Some? == log.Some?
    ensures r.log.Some? ==> r.log.value.size == log.value.size
  {
    match log
    case None => Report(code, None, msg)
    case Some(l) =>
      var inner := CatStep(l, msg, None);
      Report(if inner.rc != Success then inner.rc else code, Some(inner.dest), inner.printed)
  }

  /** str_copy(dest, source, logbuf). */
  function CopyStep(d: Str, src: string, log: Option<Str>): (r: Step)
    requires Wf(d) && NoNul(src) && WfLog(log)
    ensures Wf(r.dest) && WfLog(r.log) && r.log.Some? == log.Some?
    ensures r.log.Some? ==> r.log.value.size == log.value.size
    ensures r.dest.size == d.size
  {
    if CopyRefused(|src|, d.size) then
      var rep := Diagnose(ErrStrCopy, CopyMessage(|src|, d.size), log);
      Step(rep.rc, d, rep.log, rep.printed)
    else if !WriteFits(0, |src|, d.size) then
      Step(OutOfBounds, d, log, "")
    else
      Step(Success, Str(d.size, src), log, "")
  }

  /** str_malloc(newbuf, bufsize, logbuf), where `granted` says whether malloc
      returned storage. A granted request of zero chars leaves no room for the
      terminator that str_malloc stores. */
  function AllocReport(bufsize: nat, granted: bool, log: Option<Str>): (r: Report)
    requires WfLog(log)
    ensures WfLog(r.log) && r.log.Some? == log.Some?
    ensures r.log.Some? ==> r.log.value.size == log.value.size
  {
    if !granted then Diagnose(ErrStrMalloc, MallocMessage(bufsize), log)
    else if bufsize == 0 then Report(OutOfBounds, log, "")
    else Report(Success, log, "")
  }

  // ---------------------------------------------------------------------
  // str_copy

  /** A source shorter than the allocation replaces the content wholesale;
      size, log and stdout are left alone. */
  lemma CopyReplaces(d: Str, src: string, log: Option<Str>)
    requires Wf(d) && NoNul(src) && WfLog(log)
    requires |src| < d.size
    ensures CopyStep(d, src, log) == Step(Success, Str(d.size, src), log, "")
  {
  }

  /** A source longer than the allocation leaves the destination as it was and
      routes "string copy failed ..." to stdout or into the log. */
  lemma CopyOverflow(d: Str, src: string, log: Option<Str>)
    requires Wf(d) && NoNul(src) && WfLog(log)
    requires |src| > d.size
    ensures var r := CopyStep(d, src, log); var msg := CopyMessage(|src|, d.size);
      && r.dest == d
      && (log.None? ==> r.rc == ErrStrCopy && r.log == None && r.printed == msg)
      && (log.Some? && |msg| < log.value.size - |log.value.content| ==>
            r.rc == ErrStrCopy && r.printed == ""
            && r.log == Some(Str(log.value.size, log.value.content + msg)))
      && (log.Some? && |msg| == log.value.size - |log.value.content| ==>
            r.rc == OutOfBounds && r.log == log && r.printed == "")
      && (log.Some? && |msg| > log.value.size - |log.value.content| ==>
            r.rc == ErrStrCat && r.log == log
            && r.printed == CatMessage(|msg|, log.value.size - |log.value.content|))
  {
  }

  /** Success of str_copy is exactly "the source and its terminator fit". */
  lemma CopySucceedsIffFits(d: Str, src: string, log: Option<Str>)
    requires Wf(d) && NoNul(src) && WfLog(log)
    ensures CopyStep(d, src, log).rc == Success <==> WriteFits(0, |src|, d.size)
  {
  }

  /** The test at template.c:99 as written lets through exactly one source
      length whose copy does not fit: the one equal to the allocation. */
  lemma CopyGuardAdmitsOverrun(sourcelen: nat, size: nat)
    ensures !CopyRefused(sourcelen, size) && !WriteFits(0, sourcelen, size) <==> sourcelen == size
  {
  }

  /** Witness: four chars into a 4-char buffer pass the test, yet memcpy would write 5. */
  lemma CopyOverrunWitness()
    ensures !CopyRefused(|"abcd"|, 4) && !WriteFits(0, |"abcd"|, 4)
    ensures CopyStep(Str(4, ""), "abcd", None).rc == OutOfBounds
  {
  }

  // ---------------------------------------------------------------------
  // str_cat

  /** A source shorter than the free space is appended after the old content;
      size, log and stdout are left alone. */
  lemma CatAppends(d: Str, src: string, log: Option<Str>)
    requires Wf(d) && NoNul(src) && WfLog(log)
    requires |src| < d.size - |d.content|
    ensures var r := CatStep(d, src, log);
      && r == Step(Success, Str(d.size, d.content + src), log, "")
      && r.dest.content[..|d.content|] == d.content
  {
  }

  /** A source longer than the free space leaves the destination as it was.
      Without a log the code is ERR_STR_CAT and the diagnostic is printed;
      with a log the code is that of the nested append of the diagnostic. */
  lemma CatOverflow(d: Str, src: string, log: Option<Str>)
    requires Wf(d) && NoNul(src) && WfLog(log)
    requires |src| > d.size - |d.content|
    ensures var r := CatStep(d, src, log); var msg := CatMessage(|src|, d.size - |d.content|);
      && r.dest == d
      && (log.None? ==> r.rc == ErrStrCat && r.log == None && r.printed == msg)
      && (log.Some? ==> var inner := CatStep(log.value, msg, None);
            r.rc == inner.rc && r.log == Some(inner.dest) && r.printed == inner.printed)
  {
  }

  /** With a log that has room for the diagnostic, a refused append reports
      SUCCESS: the overflow shows only in the log, not in the code. */
  lemma CatOverflowSwallowed(d: Str, src: string, l: Str)
    requires Wf(d) && NoNul(src) && Wf(l)
    requires |src| > d.size - |d.content|
    requires |CatMessage(|src|, d.size - |d.content|)| < l.size - |l.content|
    ensures var r := CatStep(d, src, Some(l));
      && r.rc == Success && r.dest == d && r.printed == ""
      && r.log == Some(Str(l.size, l.content + CatMessage(|src|, d.size - |d.content|)))
  {
  }

  /** Success of str_cat is exactly "the source and its terminator fit after
      the content", or an overflow whose diagnostic the log absorbed. */
  lemma {:induction false} CatSucceedsIff(d: Str, src: string, log: Option<Str>)
    requires Wf(d) && NoNul(src) && WfLog(log)
    ensures var r := CatStep(d, src, log);
      r.rc == Success <==>
        WriteFits(|d.content|, |src|, d.size)
        || (log.Some? && |src| > d.size - |d.content|
            && WriteFits(|log.value.content|, |CatMessage(|src|, d.size - |d.content|)|, log.value.size))
    decreases log.Some?
  {
    if log.Some? && |src| > d.size - |d.content| {
      CatSucceedsIff(log.value, CatMessage(|src|, d.size - |d.content|), None);
    }
  }

  /** The model appends exactly when the source and its terminator fit after
      the content; otherwise the destination keeps its old content. */
  lemma CatAppendsIffFits(d: Str, src: string, log: Option<Str>)
    requires Wf(d) && NoNul(src) && WfLog(log)
    ensures var r := CatStep(d, src, log);
      && (WriteFits(|d.content|, |src|, d.size) <==> r.dest.content == d.content + src)
      && (!WriteFits(|d.content|, |src|, d.size) ==> r.dest == d)
  {
  }

  /** The test at template.c:120 as written lets through exactly one source
      length whose append does not fit: the one equal to the free space. */
  lemma CatGuardAdmitsOverrun(destlen: nat, sourcelen: nat, size: nat)
    requires destlen < size
    ensures !CatRefused(sourcelen, size - destlen) && !WriteFits(destlen, sourcelen, size)
            <==> sourcelen == size - destlen
  {
  }

  /** Witness: "bar" after "foo" in a 6-char buffer passes the test, yet
      memcpy would write the terminator at index 6. */
  lemma CatOverrunWitness()
    ensures !CatRefused(|"bar"|, 6 - |"foo"|) && !WriteFits(|"foo"|, |"bar"|, 6)
    ensures CatStep(Str(6, "foo"), "bar", None).rc == OutOfBounds
  {
  }

  /** A nested diagnostic append never recurses again: with no log, a failed
      append prints at most its own one-line diagnostic. */
  lemma CatWithoutLogPrintsOnce(d: Str, src: string)
    requires Wf(d) && NoNul(src)
    ensures var r := CatStep(d, src, None);
      && r.log == None
      && (r.rc == Success ==> r.printed == "")
      && (r.rc == ErrStrCat ==> r.printed == CatMessage(|src|, d.size - |d.content|))
      && (r.rc == OutOfBounds ==> r.printed == "")
      && (r.rc == Success || r.rc == ErrStrCat || r.rc == OutOfBounds)
  {
  }

  // ---------------------------------------------------------------------
  // str_malloc

  /** A granted request of at least one char succeeds and logs nothing. */
  lemma AllocGranted(bufsize: nat, log: Option<Str>)
    requires WfLog(log) && bufsize >= 1
    ensures AllocReport(bufsize, true, log) == Report(Success, log, "")
  {
  }

  /** A refused request yields ERR_STR_MALLOC after routing "malloc failed ...",
      or the code of the log append when that append fails. */
  lemma AllocRefused(bufsize: nat, log: Option<Str>)
    requires WfLog(log)
    ensures var r := AllocReport(bufsize, false, log); var msg := MallocMessage(bufsize);
      && (log.None? ==> r == Report(ErrStrMalloc, None, msg))
      && (log.Some? && |msg| < log.value.size - |log.value.content| ==>
            r == Report(ErrStrMalloc, Some(Str(log.value.size, log.value.content + msg)), ""))
      && (log.Some? && |msg| == log.value.size - |log.value.content| ==>
            r == Report(OutOfBounds, log, ""))
      && (log.Some? && |msg| > log.value.size - |log.value.content| ==>
            r == Report(ErrStrCat, log, CatMessage(|msg|, log.value.size - |log.value.content|)))
      && r.rc != Success
  {
  }

  // ---------------------------------------------------------------------
  // The size checks as evidently intended: refuse when the source and its
  // terminator do not fit, that is `sourcelen >= size` for str_copy and
  // `sourcelen >= destfree` for str_cat.

  /** str_cat with the corrected test. Its nested append of the diagnostic
      uses the corrected test too, so no step ever writes out of bounds. */
  function CatStepIntended(d: Str, src: string, log: Option<Str>): (r: Step)
    requires Wf(d) && NoNul(src) && WfLog(log)
    ensures Wf(r.dest) && WfLog(r.log) && r.log.Some? == log.Some?
    ensures r.log.Some? ==> r.log.value.size == log.value.size
    ensures r.dest.size == d.size
    ensures r.rc == Success || r.rc == ErrStrCat
    ensures r.dest == d || r.dest.content == d.content + src
    decreases log.Some?
  {
    var destlen := |d.content|;
    var destfree := d.size - destlen;
    if !WriteFits(destlen, |src|, d.size) then
      var msg := CatMessage(|src|, destfree);
      match log
      case None => Step(ErrStrCat, d, None, msg)
      case Some(l) =>
        var inner := CatStepIntended(l, msg, None);
        Step(inner.rc, d, Some(inner.dest), inner.printed)
    else
      Step(Success, Str(d.size, d.content + src), log, "")
  }

  /** str_copy with the corrected test; the diagnostic goes to stdout or,
      by the corrected str_cat, into the log. */
  function CopyStepIntended(d: Str, src: string, log: Option<Str>): (r: Step)
    requires Wf(d) && NoNul(src) && WfLog(log)
    ensures Wf(r.dest) && WfLog(r.log) && r.log.Some? == log.Some?
    ensures r.log.Some? ==> r.log.value.size == log.value.size
    ensures r.dest.size == d.size
    ensures r.rc == Success || r.rc == ErrStrCopy || r.rc == ErrStrCat
  {
    if !WriteFits(0, |src|, d.size) then
      var msg := CopyMessage(|src|, d.size);
      match log
      case None => Step(ErrStrCopy, d, None, msg)
      case Some(l) =>
        var inner := CatStepIntended(l, msg, None);
        Step(if inner.rc != Success then inner.rc else ErrStrCopy, d, Some(inner.dest), inner.printed)
    else
      Step(Success, Str(d.size, src), log, "")
  }

  /** The corrected str_copy succeeds exactly when the copy fits, and then
      the source is the whole content; otherwise dest is untouched. */
  lemma CopyIntendedSafe(d: Str, src: string, log: Option<Str>)
    requires Wf(d) && NoNul(src) && WfLog(log)
    ensures var r := CopyStepIntended(d, src, log);
      && (r.rc == Success <==> WriteFits(0, |src|, d.size))
      && (r.rc == Success ==> r.dest == Str(d.size, src) && r.log == log && r.printed == "")
      && (r.rc != Success ==> r.dest == d)
  {
  }

  /** The corrected str_cat changes dest exactly when the append fits, and
      then appends the source; without a log its success means the same. */
  lemma CatIntendedSafe(d: Str, src: string, log: Option<Str>)
    requires Wf(d) && NoNul(src) && WfLog(log)
    ensures var r := CatStepIntended(d, src, log);
      && (WriteFits(|d.content|, |src|, d.size) <==> r.dest == Str(d.size, d.content + src) && r.rc == Success && r.log == log)
      && (!WriteFits(|d.content|, |src|, d.size) ==> r.dest == d)
      && (log.None? ==> (r.rc == Success <==> WriteFits(|d.content|, |src|, d.size)))
  {
  }

  /** Away from the boundary the corrected str_cat takes the step of the one
      as written, provided the nested append of its diagnostic is away from
      the log's boundary too. */
  lemma CatIntendedAgrees(d: Str, src: string, log: Option<Str>)
    requires Wf(d) && NoNul(src) && WfLog(log)
    requires |src| != d.size - |d.content|
    requires log.Some? && |src| > d.size - |d.content| ==>
      |CatMessage(|src|, d.size - |d.content|)| != log.value.size - |log.value.content|
    ensures CatStepIntended(d, src, log) == CatStep(d, src, log)
  {
  }

  /** At the boundary `sourcelen == destfree`, where the test as written lets
      an overrun through, the corrected str_cat refuses with the diagnostic
      "source length destfree, free space destfree". */
  lemma CatIntendedBoundary(d: Str, src: string, log: Option<Str>)
    requires Wf(d) && NoNul(src) && WfLog(log)
    requires |src| == d.size - |d.content|
    ensures CatStep(d, src, log).rc == OutOfBounds
    ensures var r := CatStepIntended(d, src, log); var free := d.size - |d.content|;
      && r.dest == d
      && (log.None? ==> r == Step(ErrStrCat, d, None, CatMessage(free, free)))
      && (log.Some? ==> r.log == Some(CatStepIntended(log.value, CatMessage(free, free), None).dest))
  {
    assert !WriteFits(|d.content|, |src|, d.size);
    if log.Some? {
      var free := d.size - |d.content|;
      var inner := CatStepIntended(log.value, CatMessage(free, free), None);
      assert CatStepIntended(d, src, log) == Step(inner.rc, d, Some(inner.dest), inner.printed);
    }
  }

  /** Away from the boundary the corrected str_copy takes the step of the one
      as written, provided the nested append of its diagnostic is away from
      the log's boundary too. */
  lemma CopyIntendedAgrees(d: Str, src: string, log: Option<Str>)
    requires Wf(d) && NoNul(src) && WfLog(log)
    requires |src| != d.size
    requires log.Some? && |src| > d.size ==>
      |CopyMessage(|src|, d.size)| != log.value.size - |log.value.content|
    ensures CopyStepIntended(d, src, log) == CopyStep(d, src, log)
  {
  }

  /** At the boundary `sourcelen == size`, where the test as written lets an
      overrun through, the corrected str_copy refuses with the diagnostic
      "source length size, dest size size". */
  lemma CopyIntendedBoundary(d: Str, src: string, log: Option<Str>)
    requires Wf(d) && NoNul(src) && WfLog(log)
    requires |src| == d.size
    ensures CopyStep(d, src, log).rc == OutOfBounds
    ensures var r := CopyStepIntended(d, src, log);
      && r.dest == d && r.rc != Success
      && (log.None? ==> r == Step(ErrStrCopy, d, None, CopyMessage(d.size, d.size)))
      && (log.Some? ==> r.log == Some(CatStepIntended(log.value, CopyMessage(d.size, d.size), None).dest))
  {
  }

  // ---------------------------------------------------------------------
  // test_all

  /** The allocation answers the environment gives the three test cases. */
  datatype Grants = Grants(mallocTest: bool, copyTest: bool, catTest: bool)

  const TestCount: nat := 3
  const SummaryTail := " tests completed successfully\n"

  /** The three CAT arguments of the summary: a newline, the test count
      rendered with `%d`, and the closing words. Each is a C string. */
  function SummaryParts(): (parts: seq<string>)
    ensures |parts| == 3
    ensures forall i :: 0 <= i < |parts| ==> NoNul(parts[i])
  {
    DigitsHaveNoNul(NatToDecimal(TestCount));
    ["\n", NatToDecimal(TestCount), SummaryTail]
  }

  function Concat(parts: seq<string>): (s: string) {
    if parts == [] then "" else parts[0] + Concat(parts[1..])
  }

  /** Successive CAT(logbuf, part, NULL): stop at the first append that fails. */
  function CatAll(log: Str, parts: seq<string>): (r: Report)
    requires Wf(log) && forall i :: 0 <= i < |parts| ==> NoNul(parts[i])
    ensures r.log.Some? && Wf(r.log.value) && r.log.value.size == log.size
    decreases |parts|
  {
    if parts == [] then Report(Success, Some(log), "")
    else
      var s := CatStep(log, parts[0], None);
      if s.rc != Success then Report(s.rc, Some(s.dest), s.printed)
      else
        var rest := CatAll(s.dest, parts[1..]);
        Report(rest.rc, rest.log, s.printed + rest.printed)
  }

  /** test_all: each test fails only when its allocation is refused, and
      TESTCASE returns the first failure; after three passes the summary
      line is appended to the log. */
  function SuiteReport(g: Grants, log: Str): (r: Report)
    requires Wf(log)
    ensures r.log.Some? && Wf(r.log.value) && r.log.value.size == log.size
  {
    var a := AllocReport(5, g.mallocTest, Some(log));
    if a.rc != Success then a
    else
      var b := AllocReport(4, g.copyTest, a.log);
      if b.rc != Success then b
      else
        var c := AllocReport(7, g.catTest, b.log);
        if c.rc != Success then c
        else CatAll(c.log.value, SummaryParts())
  }

  /** One CAT of a run of appends: a failing append ends the run with its own
      report; a successful one prints nothing and hands on to the rest. */
  lemma CatAllStep(log: Str, parts: seq<string>)
    requires Wf(log) && forall i :: 0 <= i < |parts| ==> NoNul(parts[i])
    requires parts != []
    ensures var s := CatStep(log, parts[0], None);
      && (s.rc != Success ==> CatAll(log, parts) == Report(s.rc, Some(s.dest), s.printed))
      && (s.rc == Success ==> s.printed == "" && CatAll(log, parts) == CatAll(s.dest, parts[1..]))
  {
  }

  /** Appending parts that, with their terminator, fit in the free space
      succeeds and extends the log by their concatenation. */
  lemma {:induction false} CatAllAppends(log: Str, parts: seq<string>)
    requires Wf(log) && forall i :: 0 <= i < |parts| ==> NoNul(parts[i])
    requires |log.content| + |Concat(parts)| < log.size
    ensures CatAll(log, parts) == Report(Success, Some(Str(log.size, log.content + Concat(parts))), "")
    decreases |parts|
  {
    if parts != [] {
      var s := CatStep(log, parts[0], None);
      assert Concat(parts) == parts[0] + Concat(parts[1..]);
      CatAppends(log, parts[0], None);
      assert s.dest == Str(log.size, log.content + parts[0]);
      CatAllAppends(s.dest, parts[1..]);
      assert s.dest.content + Concat(parts[1..]) == log.content + Concat(parts);
    } else {
      assert log.content + Concat(parts) == log.content;
    }
  }

  /** A successful CatAll has appended every part. */
  lemma {:induction false} CatAllSuccess(log: Str, parts: seq<string>)
    requires Wf(log) && forall i :: 0 <= i < |parts| ==> NoNul(parts[i])
    requires CatAll(log, parts).rc == Success
    ensures CatAll(log, parts).log == Some(Str(log.size, log.content + Concat(parts)))
    ensures CatAll(log, parts).printed == ""
    decreases |parts|
  {
    if parts != [] {
      var s := CatStep(log, parts[0], None);
      CatWithoutLogPrintsOnce(log, parts[0]);
      CatSucceedsIff(log, parts[0], None);
      CatAppends(log, parts[0], None);
      assert Concat(parts) == parts[0] + Concat(parts[1..]);
      CatAllSuccess(s.dest, parts[1..]);
      assert s.dest.content + Concat(parts[1..]) == log.content + Concat(parts);
    } else {
      assert log.content + Concat(parts) == log.content;
    }
  }

  /** sprintf(rc_str, "%d", 3) renders "3", so the three CAT arguments
      concatenate to the summary line "\n3 tests completed successfully\n". */
  lemma SummaryText()
    ensures Concat(SummaryParts()) == "\n3" + SummaryTail
  {
    var parts := SummaryParts();
    var tail1 := [SummaryTail];
    var tail2 := [NatToDecimal(TestCount), SummaryTail];
    assert parts == ["\n"] + tail2;
    assert Concat(tail1) == SummaryTail by { assert tail1[1..] == []; }
    assert Concat(tail2) == NatToDecimal(TestCount) + SummaryTail by { assert tail2[1..] == tail1; }
    assert Concat(parts) == "\n" + Concat(tail2) by { assert parts[1..] == tail2; }
    assert NatToDecimal(TestCount) == "3";
  }

  /** The suite reports SUCCESS only after appending the summary line, and then
      nothing else has been logged or printed. */
  lemma SuiteSuccessAppendsSummary(g: Grants, log: Str)
    requires Wf(log)
    requires SuiteReport(g, log).rc == Success
    ensures SuiteReport(g, log) == Report(Success, Some(Str(log.size, log.content + ("\n3" + SummaryTail))), "")
  {
    AllocRefused(5, Some(log));
    AllocRefused(4, Some(log));
    AllocRefused(7, Some(log));
    SummaryText();
    CatAllSuccess(log, SummaryParts());
  }

  /** With every allocation granted and room in the log for the summary, the suite succeeds. */
  lemma SuitePasses(log: Str)
    requires Wf(log) && |log.content| + 32 < log.size
    ensures SuiteReport(Grants(true, true, true), log).rc == Success
  {
  }

  /** With every allocation granted, the suite's outcome is that of appending the summary. */
  lemma SuiteAllGranted(g: Grants, log: Str)
    requires Wf(log) && g.mallocTest && g.copyTest && g.catTest
    ensures SuiteReport(g, log) == CatAll(log, SummaryParts())
  {
  }

  /** TESTCASE short-circuits: the first refused allocation decides the code,
      and only its diagnostic reaches the log. */
  lemma SuiteShortCircuits(g: Grants, log: Str)
    requires Wf(log)
    ensures !g.mallocTest ==> SuiteReport(g, log) == AllocReport(5, false, Some(log))
    ensures g.mallocTest && !g.copyTest ==> SuiteReport(g, log) == AllocReport(4, false, Some(log))
    ensures g.mallocTest && g.copyTest && !g.catTest ==> SuiteReport(g, log) == AllocReport(7, false, Some(log))
    ensures !(g.mallocTest && g.copyTest && g.catTest) ==> SuiteReport(g, log).rc != Success
  {
  }

  /** The copy and cat tests never fail on their own checks: the suite's code
      comes from an allocation or from an append into the log. */
  lemma SuiteCodes(g: Grants, log: Str)
    requires Wf(log)
    ensures SuiteReport(g, log).rc in {Success, ErrStrMalloc, ErrStrCat, OutOfBounds}
  {
  }
}
