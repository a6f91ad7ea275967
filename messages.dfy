/** The diagnostic texts of template.c and the stack buffers `sprintf`
    renders them into. Each text is its C format string with every `%lu`
    replaced by the decimal numeral of the corresponding argument. */
module Messages {
  import opened Decimal

  /** A C string: no character before its end is the terminator. */
  predicate NoNul(s: string) {
    forall i :: 0 <= i < |s| ==> s[i] != '\0'
  }

  lemma DigitsHaveNoNul(s: string)
    requires AllDigits(s)
    ensures NoNul(s)
  {
  }

  // Width of `unsigned long` on the LP64 targets the sizing assumes.
  const UlongBits: nat := 64
  // ULONG_MAX_LEN: room reserved for one rendered `unsigned long`.
  const UlongMaxLen: nat := UlongBits / 3 + 2

  const CopyHead := "string copy failed : source length "
  const CopyMid := " > dest allocated space "
  const CatHead := "string cat failed : source length "
  const CatMid := " > dest free space "
  const MallocHead := "malloc failed : size requested "

  // The format strings ERR_MES_STR_COPY and ERR_MES_STR_CAT.
  const ErrMesStrCopy := CopyHead + "%lu" + CopyMid + "%lu\n"
  const ErrMesStrCat := CatHead + "%lu" + CatMid + "%lu\n"

  // ERR_MES_STR_COPY_LEN and ERR_MES_STR_CAT_LEN: sizeof the format
  // (terminator included) plus room for two rendered numbers.
  const ErrMesStrCopyLen: nat := |ErrMesStrCopy| + 1 + 2 * UlongMaxLen
  const ErrMesStrCatLen: nat := |ErrMesStrCat| + 1 + 2 * UlongMaxLen
  // The fixed sizes of `errmes` in str_malloc and of `rc_str` in test_all.
  const MallocMesLen: nat := 100
  const RcStrLen: nat := 20

  const ULongLimit: nat := 0x1_0000_0000_0000_0000

  /** "string copy failed : source length <sourcelen> > dest allocated space <size>\n" */
  function CopyMessage(sourcelen: nat, size: nat): (m: string)
    ensures NoNul(m)
    ensures |m| == |ErrMesStrCopy| - 6 + |NatToDecimal(sourcelen)| + |NatToDecimal(size)|
  {
    DigitsHaveNoNul(NatToDecimal(sourcelen));
    DigitsHaveNoNul(NatToDecimal(size));
    CopyHead + NatToDecimal(sourcelen) + CopyMid + NatToDecimal(size) + "\n"
  }

  /** "string cat failed : source length <sourcelen> > dest free space <destfree>\n" */
  function CatMessage(sourcelen: nat, destfree: nat): (m: string)
    ensures NoNul(m)
    ensures |m| == |ErrMesStrCat| - 6 + |NatToDecimal(sourcelen)| + |NatToDecimal(destfree)|
  {
    DigitsHaveNoNul(NatToDecimal(sourcelen));
    DigitsHaveNoNul(NatToDecimal(destfree));
    CatHead + NatToDecimal(sourcelen) + CatMid + NatToDecimal(destfree) + "\n"
  }

  /** "malloc failed : size requested <bufsize> \n", with the space before the newline. */
  function MallocMessage(bufsize: nat): (m: string)
    ensures NoNul(m)
    ensures |m| == |MallocHead| + |NatToDecimal(bufsize)| + 2
  {
    DigitsHaveNoNul(NatToDecimal(bufsize));
    MallocHead + NatToDecimal(bufsize) + " \n"
  }

  /** The copy diagnostic and its terminator fit ERR_MES_STR_COPY_LEN for any 64-bit sizes. */
  lemma CopyMessageFits(sourcelen: nat, size: nat)
    requires sourcelen < ULongLimit && size < ULongLimit
    ensures |CopyMessage(sourcelen, size)| + 1 <= ErrMesStrCopyLen
  {
    DecimalLength64(sourcelen);
    DecimalLength64(size);
  }

  /** The cat diagnostic and its terminator fit ERR_MES_STR_CAT_LEN for any 64-bit sizes. */
  lemma CatMessageFits(sourcelen: nat, destfree: nat)
    requires sourcelen < ULongLimit && destfree < ULongLimit
    ensures |CatMessage(sourcelen, destfree)| + 1 <= ErrMesStrCatLen
  {
    DecimalLength64(sourcelen);
    DecimalLength64(destfree);
  }

  /** The allocation diagnostic and its terminator fit the 100-char `errmes`. */
  lemma MallocMessageFits(bufsize: nat)
    requires bufsize < ULongLimit
    ensures |MallocMessage(bufsize)| + 1 <= MallocMesLen
  {
    DecimalLength64(bufsize);
  }

  /** Any `int` test count renders into the 20-char `rc_str` with its terminator. */
  lemma CountFits(count: nat)
    requires count < 0x8000_0000
    ensures |NatToDecimal(count)| + 1 <= RcStrLen
  {
    assert Pow10(5) == 100_000;
    Pow10Add(5, 5);
    DecimalLength(count, 10);
  }
}
