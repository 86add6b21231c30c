/**
 * The rating cache: one text record per `review/score` line, written as
 * `userIndex,productIndex,score` and a newline, and the way the cache is
 * read back line by line.
 */
module Records {
  import opened Wrappers

  /** One rating as ingestion writes it: user index, product index, score text. */
  datatype Rating = Rating(user: nat, product: nat, score: string)

  predicate IsDigit(c: char) {
    '0' <= c <= '9'
  }

  predicate AllDigits(s: string) {
    forall i | 0 <= i < |s| :: IsDigit(s[i])
  }

  predicate IsLineBreak(c: char) {
    c == '\n' || c == '\r'
  }

  /** True of the text of one line: it holds no line terminator. */
  predicate NoLineBreak(s: string) {
    forall i | 0 <= i < |s| :: !IsLineBreak(s[i])
  }

  function DigitChar(d: nat): (c: char)
    requires d < 10
    ensures IsDigit(c)
  {
    (48 + d) as char
  }

  function DigitValue(c: char): nat {
    if IsDigit(c) then (c as int) - 48 else 0
  }

  /**
   * The decimal text of a non-negative `int`, as `StringBuilder.append(int)`
   * writes it: digits only, and no leading zero except for zero itself.
   */
  function Decimal(n: nat): (r: string)
    ensures |r| >= 1 && AllDigits(r)
    ensures r[0] == '0' <==> n == 0
    ensures |r| > 1 ==> r[0] != '0'
    decreases n
  {
    if n < 10 then [DigitChar(n)] else Decimal(n / 10) + [DigitChar(n % 10)]
  }

  /** Reads a run of decimal digits back as a number. */
  function ParseDecimal(s: string): nat
    decreases |s|
  {
    if s == [] then 0 else ParseDecimal(s[..|s| - 1]) * 10 + DigitValue(s[|s| - 1])
  }

  lemma {:induction false} DecimalRoundTrip(n: nat)
    ensures ParseDecimal(Decimal(n)) == n
    decreases n
  {
    if n >= 10 {
      DecimalRoundTrip(n / 10);
      var s := Decimal(n);
      assert s[..|s| - 1] == Decimal(n / 10);
    }
  }

  /** The decimal text of any `int`, with a minus sign when it is negative. */
  function IntText(n: int): string {
    if n < 0 then "-" + Decimal(-n) else Decimal(n)
  }

  lemma IntTextHasNoComma(n: int)
    ensures ',' !in IntText(n)
  {
    var d := Decimal(if n < 0 then -n else n);
    DigitsHaveNoComma(d);
    assert n < 0 ==> IntText(n) == ['-'] + d;
  }

  /**
   * The text `cacheToFile(pID, uID, score)` appends: user first, then product.
   * The first comma ends the user's text and the second the product's, so the
   * score keeps whatever commas it holds.
   */
  function RecordLine(pID: int, uID: int, score: string): (r: string)
    ensures Split(r, ',') == Some((IntText(uID), IntText(pID) + "," + score))
    ensures Split(IntText(pID) + "," + score, ',') == Some((IntText(pID), score))
    ensures |r| >= |score| + 4 && r[|r| - |score|..] == score
  {
    IntTextHasNoComma(uID);
    IntTextHasNoComma(pID);
    SplitAtFirst(IntText(uID), ',', IntText(pID) + "," + score);
    SplitAtFirst(IntText(pID), ',', score);
    assert IntText(uID) + "," + IntText(pID) + "," + score == IntText(uID) + [','] + (IntText(pID) + "," + score);
    IntText(uID) + "," + IntText(pID) + "," + score
  }

  /** The line ingestion writes for a rating; its caller appends the newline to the score. */
  function RecordText(r: Rating): string {
    RecordLine(r.product, r.user, r.score + "\n")
  }

  /** The line a reader of the cache gets back for a rating (the record without its newline). */
  function RecordBody(r: Rating): string {
    RecordLine(r.product, r.user, r.score)
  }

  /** The text of the cache after the given ratings were appended in order. */
  function Serialize(rs: seq<Rating>): (r: string)
    ensures r == [] <==> rs == []
    ensures rs != [] ==> r[|r| - 1] == '\n'
    decreases |rs|
  {
    if rs == [] then [] else RecordText(rs[0]) + Serialize(rs[1..])
  }

  lemma {:induction false} SerializeAppend(rs: seq<Rating>, r: Rating)
    ensures Serialize(rs + [r]) == Serialize(rs) + RecordText(r)
    decreases |rs|
  {
    if rs == [] {
      assert rs + [r] == [r];
      assert Serialize([r]) == RecordText(r) + Serialize([]);
    } else {
      var t := rs + [r];
      assert t[0] == rs[0] && t[1..] == rs[1..] + [r];
      SerializeAppend(rs[1..], r);
      calc {
        Serialize(t);
        RecordText(rs[0]) + Serialize(rs[1..] + [r]);
        RecordText(rs[0]) + (Serialize(rs[1..]) + RecordText(r));
        (RecordText(rs[0]) + Serialize(rs[1..])) + RecordText(r);
      }
    }
  }

  /** Splits at the first occurrence of `sep`. */
  function Split(s: string, sep: char): (r: Option<(string, string)>)
    ensures r.Some? ==> s == r.value.0 + [sep] + r.value.1 && sep !in r.value.0
    ensures r.None? ==> sep !in s
    decreases |s|
  {
    if s == [] then None
    else if s[0] == sep then Some(([], s[1..]))
    else match Split(s[1..], sep)
      case None => None
      case Some((a, b)) => Some(([s[0]] + a, b))
  }

  lemma {:induction false} SplitAtFirst(a: string, sep: char, b: string)
    requires sep !in a
    ensures Split(a + [sep] + b, sep) == Some((a, b))
    decreases |a|
  {
    if a != [] {
      assert (a + [sep] + b)[1..] == a[1..] + [sep] + b;
      SplitAtFirst(a[1..], sep, b);
      assert [a[0]] + a[1..] == a;
    }
  }

  /**
   * The reading of one cache record: user digits, a comma, product digits, a
   * comma, then the score up to the closing newline. The score may itself
   * hold commas; only the first two separate fields.
   */
  function ParseRecord(t: string): Option<Rating> {
    match Split(t, ',')
    case None => None
    case Some((u, rest)) =>
      match Split(rest, ',')
      case None => None
      case Some((p, tail)) =>
        if |u| == 0 || |p| == 0 || !AllDigits(u) || !AllDigits(p) || |tail| == 0 || tail[|tail| - 1] != '\n'
        then None
        else Some(Rating(ParseDecimal(u), ParseDecimal(p), tail[..|tail| - 1]))
  }

  lemma DigitsHaveNoComma(s: string)
    requires AllDigits(s)
    ensures ',' !in s
  {
  }

  /** Every record reads back as the rating it was written from, whatever its score text. */
  lemma RecordRoundTrip(r: Rating)
    ensures ParseRecord(RecordText(r)) == Some(r)
  {
    var u, p, tail := Decimal(r.user), Decimal(r.product), r.score + "\n";
    DigitsHaveNoComma(u);
    DigitsHaveNoComma(p);
    assert RecordText(r) == u + [','] + (p + [','] + tail);
    SplitAtFirst(u, ',', p + [','] + tail);
    SplitAtFirst(p, ',', tail);
    DecimalRoundTrip(r.user);
    DecimalRoundTrip(r.product);
    assert tail[..|tail| - 1] == r.score;
  }

  /**
   * The index of the first line terminator (`\n` or `\r`), or the length of
   * the text if it has none.
   */
  function LineEnd(s: string): (k: nat)
    ensures k <= |s| && NoLineBreak(s[..k])
    ensures k < |s| ==> IsLineBreak(s[k])
    decreases |s|
  {
    if s == [] then 0
    else if IsLineBreak(s[0]) then 0
    else
      var k := 1 + LineEnd(s[1..]);
      assert s[..k] == [s[0]] + s[1..][..k - 1];
      k
  }

  /**
   * The lines a line iterator yields over a text: a line ends at `\n`, `\r`
   * or `\r\n`, which is not part of it, and a last line without a
   * terminator is still a line.
   */
  function ReadLines(s: string): (lines: seq<string>)
    ensures forall i | 0 <= i < |lines| :: NoLineBreak(lines[i])
    decreases |s|
  {
    if s == [] then []
    else
      var k := LineEnd(s);
      if k == |s| then [s]
      else
        var skip := if s[k] == '\r' && k + 1 < |s| && s[k + 1] == '\n' then 2 else 1;
        [s[..k]] + ReadLines(s[k + skip..])
  }

  lemma {:induction false} LineEndOfBody(body: string, rest: string)
    requires NoLineBreak(body)
    ensures LineEnd(body + "\n" + rest) == |body|
    decreases |body|
  {
    if body != [] {
      assert (body + "\n" + rest)[1..] == body[1..] + "\n" + rest;
      LineEndOfBody(body[1..], rest);
    }
  }

  lemma RecordBodyHasNoLineBreak(r: Rating)
    requires NoLineBreak(r.score)
    ensures NoLineBreak(RecordBody(r))
    ensures RecordText(r) == RecordBody(r) + "\n"
  {
    var u, p := Decimal(r.user), Decimal(r.product);
    var b := RecordBody(r);
    assert b == u + "," + p + "," + r.score;
    forall i | 0 <= i < |b| ensures !IsLineBreak(b[i]) {
      if i < |u| {
        assert b[i] == u[i] && IsDigit(u[i]);
      } else if i == |u| || i == |u| + 1 + |p| {
        assert b[i] == ',';
      } else if i < |u| + 1 + |p| {
        assert b[i] == p[i - |u| - 1] && IsDigit(p[i - |u| - 1]);
      } else {
        assert b[i] == r.score[i - |u| - 2 - |p|];
      }
    }
  }

  /** Reading a record back yields its body as one line, then whatever follows it. */
  lemma ReadRecordLine(r: Rating, rest: string)
    requires NoLineBreak(r.score)
    ensures ReadLines(RecordText(r) + rest) == [RecordBody(r)] + ReadLines(rest)
  {
    var b := RecordBody(r);
    RecordBodyHasNoLineBreak(r);
    var s := RecordText(r) + rest;
    assert s == b + "\n" + rest;
    LineEndOfBody(b, rest);
    assert s[..|b|] == b;
    assert s[|b| + 1..] == rest;
  }

  /**
   * Reading the cache back yields exactly one line per rating, in order, each
   * the record without its newline; so the number of lines is the number of
   * ratings.
   */
  lemma {:induction false} ReadBackSerialized(rs: seq<Rating>)
    requires forall i | 0 <= i < |rs| :: NoLineBreak(rs[i].score)
    ensures |ReadLines(Serialize(rs))| == |rs|
    ensures forall i | 0 <= i < |rs| :: ReadLines(Serialize(rs))[i] == RecordBody(rs[i])
    decreases |rs|
  {
    if rs != [] {
      ReadRecordLine(rs[0], Serialize(rs[1..]));
      ReadBackSerialized(rs[1..]);
    }
  }
}
