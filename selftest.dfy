/** The self-test suite: three boundary tests, each on a private buffer,
    and the runner that stops at the first failure and otherwise appends a
    summary line to the log. The environment's answer to each test's
    allocation request is a parameter. */
module SelfTest {
  import opened Decimal
  import opened Messages
  import opened StrSpec
  import opened Buffers

  /** test_str_malloc: a 5-char buffer must report size 5. */
  method TestStrMalloc(logbuf: StrBuff?, out: Stdout, granted: bool) returns (rc: Rc)
    requires logbuf != null ==> logbuf.Valid()
    modifies out, if logbuf == null then {} else {logbuf, logbuf.str}
    ensures logbuf != null ==> logbuf.Valid() && logbuf.size == old(logbuf.size) && logbuf.str == old(logbuf.str)
    ensures var r := AllocReport(5, granted, old(LogView(logbuf)));
      && rc == r.rc && LogView(logbuf) == r.log && out.text == old(out.text) + r.printed
  {
    var teststr: StrBuff?;
    rc, teststr := Malloc(5, granted, logbuf, out);
    if rc != Success {
      return;
    }
    if teststr.size == 5 {
      rc := Success;
    } else {
      rc := ErrStrMalloc;
    }
  }

  /** test_str_copy: in a 4-char buffer, "foo" then "bar" must leave "bar". */
  method TestStrCopy(logbuf: StrBuff?, out: Stdout, granted: bool) returns (rc: Rc)
    requires logbuf != null ==> logbuf.Valid()
    modifies out, if logbuf == null then {} else {logbuf, logbuf.str}
    ensures logbuf != null ==> logbuf.Valid() && logbuf.size == old(logbuf.size) && logbuf.str == old(logbuf.str)
    ensures var r := AllocReport(4, granted, old(LogView(logbuf)));
      && rc == r.rc && LogView(logbuf) == r.log && out.text == old(out.text) + r.printed
  {
    var teststr: StrBuff?;
    rc, teststr := Malloc(4, granted, logbuf, out);
    if rc != Success {
      return;
    }
    assert NoNul("foo") && NoNul("bar");
    rc := teststr.Copy("foo", logbuf, out);
    if rc == Success {
      var same := teststr.Equals("foo");
      if !same {
        rc := ErrStrCopy;
      } else {
        rc := teststr.Copy("bar", logbuf, out);
        if rc == Success {
          same := teststr.Equals("bar");
          if !same {
            rc := ErrStrCopy;
          }
        }
      }
    }
  }

  /** test_str_cat: in a 7-char buffer, "foo" then "bar" must leave "foobar",
      which with its terminator fills all seven chars. */
  method TestStrCat(logbuf: StrBuff?, out: Stdout, granted: bool) returns (rc: Rc)
    requires logbuf != null ==> logbuf.Valid()
    modifies out, if logbuf == null then {} else {logbuf, logbuf.str}
    ensures logbuf != null ==> logbuf.Valid() && logbuf.size == old(logbuf.size) && logbuf.str == old(logbuf.str)
    ensures var r := AllocReport(7, granted, old(LogView(logbuf)));
      && rc == r.rc && LogView(logbuf) == r.log && out.text == old(out.text) + r.printed
  {
    var teststr: StrBuff?;
    rc, teststr := Malloc(7, granted, logbuf, out);
    if rc != Success {
      return;
    }
    assert NoNul("foo") && NoNul("bar");
    rc := teststr.Cat("foo", logbuf, out);
    if rc == Success {
      var same := teststr.Equals("foo");
      if !same {
        rc := ErrStrCat;
      } else {
        rc := teststr.Cat("bar", logbuf, out);
        if rc == Success {
          same := teststr.Equals("foobar");
          if !same {
            rc := ErrStrCat;
          }
        }
      }
    }
  }

  /** test_all: TESTCASE runs the tests in order, returning the first code
      other than SUCCESS; then the count and a summary are appended with CAT. */
  method TestAll(logbuf: StrBuff, out: Stdout, grants: Grants) returns (rc: Rc)
    requires logbuf.Valid()
    modifies logbuf, logbuf.str, out
    ensures logbuf.Valid() && logbuf.size == old(logbuf.size) && logbuf.str == old(logbuf.str)
    ensures var r := SuiteReport(grants, old(logbuf.View()));
      && rc == r.rc && r.log == Some(logbuf.View()) && out.text == old(out.text) + r.printed
  {
    ghost var log0 := logbuf.View();
    ghost var out0 := out.text;
    var testcount := 0;
    rc := TestStrMalloc(logbuf, out, grants.mallocTest);
    AllocRefused(5, Some(log0));
    AllocGranted(5, Some(log0));
    if rc != Success {
      SuiteShortCircuits(grants, log0);
      return;
    }
    assert grants.mallocTest && logbuf.View() == log0 && out.text == out0;
    testcount := testcount + 1;
    rc := TestStrCopy(logbuf, out, grants.copyTest);
    AllocRefused(4, Some(log0));
    AllocGranted(4, Some(log0));
    if rc != Success {
      SuiteShortCircuits(grants, log0);
      return;
    }
    assert grants.copyTest && logbuf.View() == log0 && out.text == out0;
    testcount := testcount + 1;
    rc := TestStrCat(logbuf, out, grants.catTest);
    AllocRefused(7, Some(log0));
    AllocGranted(7, Some(log0));
    if rc != Success {
      SuiteShortCircuits(grants, log0);
      return;
    }
    assert grants.catTest && logbuf.View() == log0 && out.text == out0;
    testcount := testcount + 1;
    SuiteAllGranted(grants, log0);
    var rcStr := NatToDecimal(testcount);
    rc := CatSummary(logbuf, out, rcStr);
    if rc != Success {
      return;
    }
    rc := Success;
  }

  /** The three CATs that close test_all: a newline, the rendered test count
      and the closing words, stopping at the first append that fails. */
  method CatSummary(logbuf: StrBuff, out: Stdout, rcStr: string) returns (rc: Rc)
    requires logbuf.Valid() && rcStr == NatToDecimal(TestCount)
    modifies logbuf, logbuf.str, out
    ensures logbuf.Valid() && logbuf.size == old(logbuf.size) && logbuf.str == old(logbuf.str)
    ensures var r := CatAll(old(logbuf.View()), SummaryParts());
      && rc == r.rc && r.log == Some(logbuf.View()) && out.text == old(out.text) + r.printed
  {
    DigitsHaveNoNul(rcStr);
    ghost var parts := SummaryParts();
    assert parts == ["\n", rcStr, SummaryTail];
    ghost var log0 := logbuf.View();
    CatAllStep(log0, parts);
    rc := logbuf.Cat("\n", null, out);
    if rc != Success {
      return;
    }
    ghost var log1 := logbuf.View();
    assert CatAll(log0, parts) == CatAll(log1, parts[1..]);
    CatAllStep(log1, parts[1..]);
    rc := logbuf.Cat(rcStr, null, out);
    if rc != Success {
      return;
    }
    ghost var log2 := logbuf.View();
    assert parts[1..][1..] == parts[2..];
    assert CatAll(log0, parts) == CatAll(log2, parts[2..]);
    CatAllStep(log2, parts[2..]);
    assert parts[2..][1..] == [];
    assert out.text == old(out.text);
    assert logbuf.Valid() && logbuf.View() == log2;
    rc := logbuf.Cat(SummaryTail, null, out);
  }
}
