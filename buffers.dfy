/** struct strbuff and the operations that change it in place: str_malloc,
    str_copy and str_cat, with the strlen, strcmp and memcpy scans they rely
    on. Each operation is proved to take the step StrSpec gives for it. */
module Buffers {
  import opened Messages
  import opened StrSpec

  /** Standard output: everything printf has written so far. */
  class Stdout {
    ghost var text: string

    constructor ()
      ensures text == []
    {
      text := [];
    }
  }

  /** A fixed-capacity C string buffer: `str` has `size` chars and holds
      `content` followed by a terminator. */
  class StrBuff {
    var size: nat
    var str: array<char>
    ghost var content: string

    ghost predicate Valid()
      reads this, str
    {
      && str.Length == size
      && Wf(Str(size, content))
      && str[..|content|] == content
      && str[|content|] == '\0'
    }

    ghost function View(): Str
      reads this
    {
      Str(size, content)
    }

    /** The successful half of str_malloc: the storage of `bufsize` chars,
        with its first char set to the terminator. */
    constructor (bufsize: nat)
      requires bufsize >= 1
      ensures Valid() && fresh(str)
      ensures View() == Str(bufsize, "")
    {
      size := bufsize;
      content := "";
      new;
      str := new char[bufsize];
      str[0] := '\0';
    }

    /** strlen(str): scan to the first terminator. */
    method Length() returns (n: nat)
      requires Valid()
      ensures n == |content|
    {
      n := 0;
      while str[n] != '\0'
        invariant n <= |content|
        decreases |content| - n
      {
        assert str[..|content|][n] == content[n];
        n := n + 1;
      }
    }

    /** strcmp(str, s) == 0: compare char by char up to the terminator. */
    method Equals(s: string) returns (eq: bool)
      requires Valid() && NoNul(s)
      ensures eq <==> content == s
    {
      var i := 0;
      while i < |s| && str[i] == s[i]
        invariant i <= |s| && i <= |content|
        invariant content[..i] == s[..i]
        decreases |s| - i
      {
        assert str[..|content|][i] == content[i];
        i := i + 1;
      }
      if i == |s| {
        eq := str[i] == '\0';
        if i < |content| {
          assert str[..|content|][i] == content[i];
        }
        assert eq ==> content[..i] == content;
      } else {
        eq := false;
      }
    }

    /** str_copy(this, source, logbuf). */
    method Copy(source: string, logbuf: StrBuff?, out: Stdout) returns (rc: Rc)
      requires Valid() && NoNul(source)
      requires logbuf != null ==> logbuf.Valid() && logbuf != this && logbuf.str != str
      modifies this, str, out, if logbuf == null then {} else {logbuf, logbuf.str}
      ensures Valid() && size == old(size) && str == old(str)
      ensures logbuf != null ==> logbuf.Valid() && logbuf.size == old(logbuf.size) && logbuf.str == old(logbuf.str)
      ensures var s := CopyStep(old(View()), source, old(LogView(logbuf)));
        && rc == s.rc && View() == s.dest && LogView(logbuf) == s.log
        && out.text == old(out.text) + s.printed
      ensures rc != Success ==> str[..] == old(str[..])
    {
      var sourcelen := |source|;
      if CopyRefused(sourcelen, size) {
        var errmes := CopyMessage(sourcelen, size);
        if logbuf == null {
          out.text := out.text + errmes;
        } else {
          rc := logbuf.Cat(errmes, null, out);
          if rc != Success {
            return;
          }
        }
        rc := ErrStrCopy;
        return;
      }
      if !WriteFits(0, sourcelen, size) {
        rc := OutOfBounds;
        return;
      }
      MemCopy(str, 0, source + ['\0']);
      content := source;
      rc := Success;
    }

    /** str_cat(this, source, logbuf); the diagnostic of a refused append goes
        into the log by a nested str_cat that has no log of its own. */
    method Cat(source: string, logbuf: StrBuff?, out: Stdout) returns (rc: Rc)
      requires Valid() && NoNul(source)
      requires logbuf != null ==> logbuf.Valid() && logbuf != this && logbuf.str != str
      modifies this, str, out, if logbuf == null then {} else {logbuf, logbuf.str}
      ensures Valid() && size == old(size) && str == old(str)
      ensures logbuf != null ==> logbuf.Valid() && logbuf.size == old(logbuf.size) && logbuf.str == old(logbuf.str)
      ensures var s := CatStep(old(View()), source, old(LogView(logbuf)));
        && rc == s.rc && View() == s.dest && LogView(logbuf) == s.log
        && out.text == old(out.text) + s.printed
      ensures !WriteFits(old(|content|), |source|, size) ==> str[..] == old(str[..])
      decreases logbuf != null
    {
      var destlen := Length();
      var destfree := size - destlen;
      var sourcelen := |source|;
      if CatRefused(sourcelen, destfree) {
        var errmes := CatMessage(sourcelen, destfree);
        rc := ErrStrCat;
        if logbuf == null {
          out.text := out.text + errmes;
        } else {
          rc := logbuf.Cat(errmes, null, out);
        }
        assert View() == old(View()) && str[..] == old(str[..]);
      } else if !WriteFits(destlen, sourcelen, size) {
        rc := OutOfBounds;
      } else {
        ghost var before := str[..];
        MemCopy(str, destlen, source + ['\0']);
        assert str[..] == before[..destlen] + source + ['\0'] + before[destlen + |source| + 1..];
        content := content + source;
        rc := Success;
      }
    }
  }

  /** The view of an optional log buffer. */
  ghost function LogView(logbuf: StrBuff?): (v: Option<Str>)
    reads logbuf
  {
    if logbuf == null then None else Some(logbuf.View())
  }

  /** memcpy(a + offset, src, |src|). */
  method MemCopy(a: array<char>, offset: nat, src: seq<char>)
    requires offset + |src| <= a.Length
    modifies a
    ensures a[..] == old(a[..offset]) + src + old(a[offset + |src|..])
  {
    var i := 0;
    while i < |src|
      invariant i <= |src|
      invariant a[..] == old(a[..offset]) + src[..i] + old(a[offset + i..])
    {
      a[offset + i] := src[i];
      i := i + 1;
    }
  }

  /** str_malloc(newbuf, bufsize, logbuf): `granted` is whether malloc
      returned storage; the new buffer is returned instead of filled in. */
  method Malloc(bufsize: nat, granted: bool, logbuf: StrBuff?, out: Stdout) returns (rc: Rc, newbuf: StrBuff?)
    requires logbuf != null ==> logbuf.Valid()
    modifies out, if logbuf == null then {} else {logbuf, logbuf.str}
    ensures logbuf != null ==> logbuf.Valid() && logbuf.size == old(logbuf.size) && logbuf.str == old(logbuf.str)
    ensures var r := AllocReport(bufsize, granted, old(LogView(logbuf)));
      && rc == r.rc && LogView(logbuf) == r.log && out.text == old(out.text) + r.printed
    ensures (rc == Success) == (newbuf != null)
    ensures newbuf != null ==> fresh(newbuf) && fresh(newbuf.str) && newbuf.Valid() && newbuf.View() == Str(bufsize, "")
  {
    newbuf := null;
    if !granted {
      var errmes := MallocMessage(bufsize);
      if logbuf == null {
        out.text := out.text + errmes;
      } else {
        rc := logbuf.Cat(errmes, null, out);
        if rc != Success {
          return;
        }
      }
      rc := ErrStrMalloc;
      return;
    }
    if bufsize == 0 {
      rc := OutOfBounds;
      return;
    }
    newbuf := new StrBuff(bufsize);
    rc := Success;
  }
}
