/**
 * The fixed-width legacy record and `extractData`, which slices one line at
 * fixed offsets (services/OrderProcessingService.js).
 *
 * Layout of a 95-character line:
 *
 *   offset  width  field
 *        0     10  user id, zero-padded digits
 *       10     45  user name, right-aligned, space-padded
 *       55     10  order id, zero-padded digits
 *       65     10  product id, zero-padded digits
 *       75     12  value, right-aligned, space-padded, two decimals
 *       87      8  date, YYYYMMDD
 *
 * `EncodeLine` writes a line in this layout; it is the reference against
 * which `ExtractData` is proved (`ExtractEncodeRoundTrip`).
 */
module LegacyRecord {
  import opened Strings
  import opened Numbers

  /** The six fields `extractData` returns, with JavaScript's number results kept as `Num`/`Money`. */
  datatype Record = Record(
    userKey: string,   // trimmed user id text, the key of the user store
    userName: string,  // trimmed user name
    orderId: Num,      // parseInt of the order id field
    productId: Num,    // parseInt of the product id field
    value: Money,      // parseFloat of the value field
    rawDate: string    // date field, untouched
  )

  const UserIdEnd: nat := 10
  const UserNameEnd: nat := 55
  const OrderIdEnd: nat := 65
  const ProductIdEnd: nat := 75
  const ValueEnd: nat := 87
  const DateEnd: nat := 95

  /**
   * `extractData(line)`. Short lines are not rejected: `substring` clamps,
   * so missing fields come out empty (text) or NaN (numbers).
   */
  function ExtractData(line: string): (r: Record)
    ensures |r.userKey| <= 10 && |r.userName| <= 45 && |r.rawDate| <= 8
    ensures |line| >= DateEnd ==> r.rawDate == line[ValueEnd..DateEnd]
    ensures |line| <= UserNameEnd ==> r.orderId == NaN && r.productId == NaN && r.value == NotANumber
  {
    var r := Record(
      Trim(Substring(line, 0, UserIdEnd)),
      Trim(Substring(line, UserIdEnd, UserNameEnd)),
      ParseInt(Trim(Substring(line, UserNameEnd, OrderIdEnd))),
      ParseInt(Trim(Substring(line, OrderIdEnd, ProductIdEnd))),
      ParseFloat(Trim(Substring(line, ProductIdEnd, ValueEnd))),
      Substring(line, ValueEnd, DateEnd));
    if |line| <= UserNameEnd then
      EmptyFields(line);
      r
    else r
  }

  /** Fields past the end of a short line are empty, so their numbers are NaN. */
  lemma EmptyFields(line: string)
    requires |line| <= UserNameEnd
    ensures ParseInt(Trim(Substring(line, UserNameEnd, OrderIdEnd))) == NaN
    ensures ParseInt(Trim(Substring(line, OrderIdEnd, ProductIdEnd))) == NaN
    ensures ParseFloat(Trim(Substring(line, ProductIdEnd, ValueEnd))) == NotANumber
  {
    assert Substring(line, UserNameEnd, OrderIdEnd) == [];
    assert Substring(line, OrderIdEnd, ProductIdEnd) == [];
    assert Substring(line, ProductIdEnd, ValueEnd) == [];
    ParseIntBlank([]);
  }

  // ---------------------------------------------------------------------------
  // The reference encoder

  /** The content of one well-formed legacy line. */
  datatype LegacyLine = LegacyLine(
    userId: nat, userName: string, orderId: nat, productId: nat, cents: nat, date: string)

  /** What fits the layout: every number within its width, a name with no padding of its own, an 8-character date. */
  predicate Encodable(l: LegacyLine) {
    && |NatToString(l.userId)| <= 10
    && |l.userName| <= 45
    && (l.userName != [] ==> !IsSpace(l.userName[0]) && !IsSpace(l.userName[|l.userName| - 1]))
    && |NatToString(l.orderId)| <= 10
    && |NatToString(l.productId)| <= 10
    && |ToFixed(Cents(l.cents))| <= 12
    && |l.date| == 8
  }

  /** A number written zero-padded to ten digits. */
  function ZeroPadded(n: nat): (s: string)
    requires |NatToString(n)| <= 10
    ensures |s| == 10 && AllDigits(s)
  {
    var s := PadLeft(NatToString(n), 10, '0');
    assert AllDigits(s) by {
      forall i | 0 <= i < 10 ensures IsDigit(s[i]) {
        if i >= 10 - |NatToString(n)| { assert s[i] == s[10 - |NatToString(n)|..][i - (10 - |NatToString(n)|)]; }
      }
    }
    s
  }

  /** Writes `l` as one fixed-width line. */
  function EncodeLine(l: LegacyLine): (line: string)
    requires Encodable(l)
    ensures |line| == DateEnd
  {
    ZeroPadded(l.userId)
    + PadLeft(l.userName, 45, ' ')
    + ZeroPadded(l.orderId)
    + ZeroPadded(l.productId)
    + PadLeft(ToFixed(Cents(l.cents)), 12, ' ')
    + l.date
  }

  // ---------------------------------------------------------------------------
  // Lemmas

  /** A zero-padded number has the number's value. */
  lemma ZeroPaddedValue(n: nat)
    requires |NatToString(n)| <= 10
    ensures DigitsValue(ZeroPadded(n)) == n
  {
    var s := ZeroPadded(n);
    var ds := NatToString(n);
    var zeros := s[..10 - |ds|];
    assert s == zeros + ds;
    LeadingZerosValue(zeros, ds);
    NatToStringValue(n);
  }

  /** A non-empty digit string is left alone by `trim` and read back by `parseInt`. */
  lemma DigitFieldReadsBack(s: string)
    requires s != [] && AllDigits(s)
    ensures Trim(s) == s
    ensures ParseInt(s) == Int(DigitsValue(s))
  {
    assert IsDigit(s[0]) && IsDigit(s[|s| - 1]);
    TrimPadded([], s, []);
    assert [] + s + [] == s;
    ParseIntDigits(s, []);
    assert s + [] == s;
  }

  /** A zero-padded number reads back, through `trim` and `parseInt`, as the number. */
  lemma ZeroPaddedReadsBack(n: nat)
    requires |NatToString(n)| <= 10
    ensures Trim(ZeroPadded(n)) == ZeroPadded(n)
    ensures ParseInt(Trim(ZeroPadded(n))) == Int(n)
  {
    DigitFieldReadsBack(ZeroPadded(n));
    ZeroPaddedValue(n);
  }

  /** A space-padded name reads back, through `trim`, as the name. */
  lemma NameReadsBack(name: string)
    requires |name| <= 45
    requires name != [] ==> !IsSpace(name[0]) && !IsSpace(name[|name| - 1])
    ensures Trim(PadLeft(name, 45, ' ')) == name
  {
    var s := PadLeft(name, 45, ' ');
    var pad := s[..45 - |name|];
    assert s == pad + name + [];
    TrimPadded(pad, name, []);
  }

  /** A right-aligned amount reads back, through `trim` and `parseFloat`, as the amount. */
  lemma ValueReadsBack(cents: nat)
    requires |ToFixed(Cents(cents))| <= 12
    ensures ParseFloat(Trim(PadLeft(ToFixed(Cents(cents)), 12, ' '))) == Cents(cents)
  {
    var v := ToFixed(Cents(cents));
    var s := PadLeft(v, 12, ' ');
    var pad := s[..12 - |v|];
    assert s == pad + v + [];
    assert IsDigit(v[0]) && IsDigit(v[|v| - 1]);
    TrimPadded(pad, v, []);
    ToFixedRoundTrip(Cents(cents));
  }

  /** `extractData` recovers every field of a line written in the legacy layout. */
  lemma ExtractEncodeRoundTrip(l: LegacyLine)
    requires Encodable(l)
    ensures ExtractData(EncodeLine(l))
         == Record(ZeroPadded(l.userId), l.userName, Int(l.orderId), Int(l.productId), Cents(l.cents), l.date)
  {
    var line := EncodeLine(l);
    assert Substring(line, 0, UserIdEnd) == ZeroPadded(l.userId);
    assert Substring(line, UserIdEnd, UserNameEnd) == PadLeft(l.userName, 45, ' ');
    assert Substring(line, UserNameEnd, OrderIdEnd) == ZeroPadded(l.orderId);
    assert Substring(line, OrderIdEnd, ProductIdEnd) == ZeroPadded(l.productId);
    assert Substring(line, ProductIdEnd, ValueEnd) == PadLeft(ToFixed(Cents(l.cents)), 12, ' ');
    assert Substring(line, ValueEnd, DateEnd) == l.date;
    ZeroPaddedReadsBack(l.userId);
    ZeroPaddedReadsBack(l.orderId);
    ZeroPaddedReadsBack(l.productId);
    NameReadsBack(l.userName);
    ValueReadsBack(l.cents);
  }

  /** The first line of the service's unit test fixture (written field by field) and the fields it must yield. */
  const SampleLine: string :=
    "0000000085" + Repeat(' ', 35) + "Jama Block" + "0000000906" + "0000000004" + "      293.47" + "20210618"

  const SampleContent: LegacyLine := LegacyLine(85, "Jama Block", 906, 4, 29347, "20210618")

  /** The sample's numeric fields, written as the fixture writes them. */
  lemma SampleNumbers()
    ensures ZeroPadded(85) == "0000000085"
    ensures ZeroPadded(906) == "0000000906"
    ensures ZeroPadded(4) == "0000000004"
    ensures ToFixed(Cents(29347)) == "293.47"
  {
    SampleUserId();
    SampleOrderId();
    SampleProductId();
    SampleValue();
  }

  lemma SampleUserId()
    ensures ZeroPadded(85) == "0000000085"
  {
    assert NatToString(85) == "85";
    assert Repeat('0', 8) == "00000000";
  }

  lemma SampleOrderId()
    ensures ZeroPadded(906) == "0000000906"
  {
    assert NatToString(906) == "906";
    assert Repeat('0', 7) == "0000000";
  }

  lemma SampleProductId()
    ensures ZeroPadded(4) == "0000000004"
  {
    assert NatToString(4) == "4";
    assert Repeat('0', 9) == "000000000";
  }

  lemma SampleValue()
    ensures ToFixed(Cents(29347)) == "293.47"
  {
    assert NatToString(293) == "293";
  }

  lemma SampleEncodes()
    ensures Encodable(SampleContent) && EncodeLine(SampleContent) == SampleLine
  {
    SampleNumbers();
    SampleNameField();
    SampleValueField();
  }

  lemma SampleNameField()
    ensures PadLeft("Jama Block", 45, ' ') == Repeat(' ', 35) + "Jama Block"
  {
  }

  lemma SampleValueField()
    ensures PadLeft(ToFixed(Cents(29347)), 12, ' ') == "      293.47"
  {
    SampleValue();
    assert Repeat(' ', 6) == "      ";
  }

  lemma SampleLineExtracts()
    ensures ExtractData(SampleLine) == Record("0000000085", "Jama Block", Int(906), Int(4), Cents(29347), "20210618")
  {
    SampleEncodes();
    SampleNumbers();
    ExtractEncodeRoundTrip(SampleContent);
  }
}
