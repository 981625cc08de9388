/**
  The temperature field of the batch shake-flask form: the comma-separated
  text a user types is split on commas, each piece is stripped of
  whitespace, blank pieces are dropped, and every remaining piece is read as
  an integer. One piece that is not an integer makes the whole parse fail,
  so no partial list is ever produced.
*/
module Temperatures {
  import opened Wrappers
  import opened Text

  predicate IsDigit(c: char) {
    '0' <= c <= '9'
  }

  predicate AllDigits(s: string) {
    forall i :: 0 <= i < |s| ==> IsDigit(s[i])
  }

  function DigitValue(c: char): (n: nat)
    requires IsDigit(c)
    ensures n < 10
  {
    (c as int) - ('0' as int)
  }

  function DigitChar(n: nat): (c: char)
    requires n < 10
    ensures IsDigit(c) && DigitValue(c) == n
  {
    (('0' as int) + n) as char
  }

  /** The sign-free part of an integer literal. */
  function Unsigned(t: string): string {
    if |t| > 0 && (t[0] == '+' || t[0] == '-') then t[1..] else t
  }

  /** The texts `int()` accepts here: an optional sign, then one or more
      ASCII digits. */
  predicate IsIntLiteral(t: string) {
    |Unsigned(t)| > 0 && AllDigits(Unsigned(t))
  }

  /** Reads a run of decimal digits, most significant first. */
  function ParseDigits(d: string): (r: Option<nat>)
    ensures r.Some? <==> |d| > 0 && AllDigits(d)
  {
    if |d| == 0 || !IsDigit(d[|d| - 1]) then None
    else if |d| == 1 then Some(DigitValue(d[0]))
    else
      match ParseDigits(d[..|d| - 1])
      case None => None
      case Some(n) => Some(10 * n + DigitValue(d[|d| - 1]))
  }

  /** `int(t)` on an already stripped token; `None` where Python raises
      `ValueError`. A leading `-` gives a value at most zero, otherwise the
      value is at least zero. */
  function ParseInt(t: string): (r: Option<int>)
    ensures r.Some? <==> IsIntLiteral(t)
    ensures r.Some? && t[0] == '-' ==> r.value <= 0
    ensures r.Some? && t[0] != '-' ==> r.value >= 0
  {
    if |t| > 0 && t[0] == '-' then
      match ParseDigits(t[1..])
      case None => None
      case Some(n) => Some(-(n as int))
    else if |t| > 0 && t[0] == '+' then
      match ParseDigits(t[1..])
      case None => None
      case Some(n) => Some(n)
    else
      match ParseDigits(t)
      case None => None
      case Some(n) => Some(n)
  }

  function Pow10(k: nat): (p: nat)
    ensures p >= 1
  {
    if k == 0 then 1 else 10 * Pow10(k - 1)
  }

  /** The positional value of a digit run: each digit times ten to the power
      of the number of digits after it. */
  function DecimalValue(d: string): nat
    requires AllDigits(d)
  {
    if d == [] then 0 else DigitValue(d[0]) * Pow10(|d| - 1) + DecimalValue(d[1..])
  }

  /** Appending a digit shifts the value one place left. */
  lemma {:induction false} DecimalValueSnoc(d: string, c: char)
    requires AllDigits(d) && IsDigit(c)
    ensures AllDigits(d + [c])
    ensures DecimalValue(d + [c]) == 10 * DecimalValue(d) + DigitValue(c)
  {
    var e := d + [c];
    assert AllDigits(e) by {
      assert forall k :: 0 <= k < |d| ==> e[k] == d[k];
      assert e[|d|] == c;
    }
    if d == [] {
      assert e == [c];
    } else {
      assert e[0] == d[0] && e[1..] == d[1..] + [c];
      assert DecimalValue(d[1..] + [c]) == 10 * DecimalValue(d[1..]) + DigitValue(c) by {
        DecimalValueSnoc(d[1..], c);
      }
      assert Pow10(|e| - 1) == 10 * Pow10(|d| - 1);
      ShiftPlace(DigitValue(d[0]), Pow10(|d| - 1), DecimalValue(d[1..]), DigitValue(c));
    }
  }

  lemma ShiftPlace(h: int, p: int, v: int, c: int)
    ensures h * (10 * p) + (10 * v + c) == 10 * (h * p + v) + c
  {
  }

  /** `ParseDigits` reads a digit run as its positional value, so leading
      zeros count for nothing: `"007"` reads as 7. */
  lemma {:induction false} ParseDigitsValue(d: string)
    requires |d| > 0 && AllDigits(d)
    ensures ParseDigits(d) == Some(DecimalValue(d))
    decreases |d|
  {
    if |d| == 1 {
      assert d[1..] == [];
    } else {
      var init, last := d[..|d| - 1], d[|d| - 1];
      assert d == init + [last];
      ParseDigitsValue(init);
      DecimalValueSnoc(init, last);
    }
  }

  /** `int(t)` is the positional value of the digits, negated after a `-`:
      `"+30"` and `"030"` read as 30 and `"-0"` as 0. */
  lemma ParseIntValue(t: string)
    requires IsIntLiteral(t)
    ensures ParseInt(t) == Some(if t[0] == '-' then -(DecimalValue(Unsigned(t)) as int) else DecimalValue(Unsigned(t)))
  {
    ParseDigitsValue(Unsigned(t));
  }

  /** A leading zero does not change the value read. */
  lemma LeadingZeroIgnored(d: string)
    requires |d| > 0 && AllDigits(d)
    ensures ParseDigits(['0'] + d) == ParseDigits(d)
  {
    var z := ['0'] + d;
    assert z[0] == '0' && z[1..] == d;
    assert AllDigits(z) by {
      assert forall k :: 0 < k < |z| ==> z[k] == d[k - 1];
    }
    assert DecimalValue(z) == DecimalValue(d) by {
      assert DigitValue(z[0]) == 0;
    }
    ParseDigitsValue(z);
    ParseDigitsValue(d);
  }

  /** Decimal text of a natural number, without leading zeros. */
  function ShowNat(n: nat): (s: string)
    ensures |s| > 0 && AllDigits(s)
    ensures s[0] == '0' ==> n == 0
  {
    if n < 10 then [DigitChar(n)] else ShowNat(n / 10) + [DigitChar(n % 10)]
  }

  /** Decimal text of an integer, as `str(n)` writes it. */
  function Show(n: int): (s: string)
    ensures |s| > 0 && !IsSpace(s[0]) && !IsSpace(s[|s| - 1]) && ',' !in s
  {
    if n < 0 then "-" + ShowNat(-n) else ShowNat(n)
  }

  lemma {:induction false} ParseShowNat(n: nat)
    ensures ParseDigits(ShowNat(n)) == Some(n)
  {
    if n >= 10 {
      ParseShowNat(n / 10);
      var s := ShowNat(n);
      assert s[..|s| - 1] == ShowNat(n / 10);
    }
  }

  /** `int(str(n)) == n`. */
  lemma ParseShow(n: int)
    ensures ParseInt(Show(n)) == Some(n)
  {
    var s := Show(n);
    if n < 0 {
      assert s[0] == '-' && s[1..] == ShowNat(-n);
      ParseShowNat(-n);
    } else {
      assert s == ShowNat(n) && IsDigit(s[0]);
      ParseShowNat(n);
    }
  }

  /** One piece, stripped, or nothing when it is blank. */
  function Kept(piece: string): seq<string> {
    var t := Strip(piece);
    if t == [] then [] else [t]
  }

  /** The stripped, non-blank pieces, in their original order. */
  function NonBlank(parts: seq<string>): (r: seq<string>)
    ensures |r| <= |parts|
  {
    if parts == [] then [] else Kept(parts[0]) + NonBlank(parts[1..])
  }

  lemma {:induction false} NonBlankAppend(a: seq<string>, b: seq<string>)
    ensures NonBlank(a + b) == NonBlank(a) + NonBlank(b)
  {
    if a == [] {
      assert a + b == b;
    } else {
      assert (a + b)[0] == a[0];
      assert (a + b)[1..] == a[1..] + b;
      NonBlankAppend(a[1..], b);
      calc {
        NonBlank(a + b);
        Kept(a[0]) + NonBlank(a[1..] + b);
        Kept(a[0]) + (NonBlank(a[1..]) + NonBlank(b));
        (Kept(a[0]) + NonBlank(a[1..])) + NonBlank(b);
        NonBlank(a) + NonBlank(b);
      }
    }
  }

  /** The tokens the comprehension at the heart of the parse iterates over. */
  function Tokens(text: string): seq<string> {
    NonBlank(Split(text, ','))
  }

  /** A comma splits the token list in two: the tokens of `a + "," + b` are
      those of `a` followed by those of `b`. */
  lemma TokensAppend(a: string, b: string)
    ensures Tokens(a + "," + b) == Tokens(a) + Tokens(b)
  {
    SplitAppend(a, b, ',');
    NonBlankAppend(Split(a, ','), Split(b, ','));
  }

  /** A text without a comma gives its stripped self as the only token, or
      no token at all when it is blank. */
  lemma TokensSingle(w: string)
    requires ',' !in w
    ensures Tokens(w) == if AllSpace(w) then [] else [Strip(w)]
  {
    SplitSingle(w, ',');
    assert [w][1..] == [];
  }

  /** Reads every token as an integer, stopping at the first that is not one. */
  function ParseAll(tokens: seq<string>): (r: Result<seq<int>, string>)
    ensures r.Success? <==> forall i :: 0 <= i < |tokens| ==> IsIntLiteral(tokens[i])
    ensures r.Success? ==> |r.value| == |tokens|
    ensures r.Success? ==> forall i :: 0 <= i < |tokens| ==> ParseInt(tokens[i]) == Some(r.value[i])
    ensures r.Failure? ==> r.error in tokens && !IsIntLiteral(r.error)
  {
    if tokens == [] then Success([])
    else
      match ParseInt(tokens[0])
      case None => Failure(tokens[0])
      case Some(v) =>
        match ParseAll(tokens[1..])
        case Failure(e) => Failure(e)
        case Success(vs) => Success([v] + vs)
  }

  /** The temperature list typed as text: the integers of the non-blank
      stripped comma-separated tokens, in order, or the first token that is
      not an integer. */
  function ParseTemperatures(text: string): (r: Result<seq<int>, string>)
    ensures r.Success? <==> forall t :: t in Tokens(text) ==> IsIntLiteral(t)
    ensures r.Success? ==> |r.value| == |Tokens(text)|
    ensures r.Success? ==> forall i :: 0 <= i < |r.value| ==> ParseInt(Tokens(text)[i]) == Some(r.value[i])
    ensures r.Failure? ==> r.error in Tokens(text) && !IsIntLiteral(r.error)
  {
    ParseAll(Tokens(text))
  }

  /** A blank piece between two commas is dropped: `"25, 30,,37"` reads
      like `"25, 30,37"`. */
  lemma BlankPieceIgnored(a: string, w: string, b: string)
    requires ',' !in w && AllSpace(w)
    ensures ParseTemperatures(a + "," + w + "," + b) == ParseTemperatures(a + "," + b)
  {
    BlankPieceTokens(a, w, b);
  }

  lemma BlankPieceTokens(a: string, w: string, b: string)
    requires ',' !in w && AllSpace(w)
    ensures Tokens(a + "," + w + "," + b) == Tokens(a + "," + b)
  {
    var tail := w + "," + b;
    assert a + "," + w + "," + b == a + "," + tail;
    assert Tokens(tail) == Tokens(b) by {
      TokensAppend(w, b);
      TokensSingle(w);
    }
    assert Tokens(a + "," + tail) == Tokens(a) + Tokens(b) by {
      TokensAppend(a, tail);
    }
    TokensAppend(a, b);
  }

  /** One piece that is not an integer, wherever it stands (first, last or
      between two commas), rejects the whole text: `"25,a,37"`, `"a,25"`
      and `"25,a"` yield no list. */
  lemma BadPieceRejects(text: string, i: int)
    requires 0 <= i < |Split(text, ',')|
    requires !AllSpace(Split(text, ',')[i]) && !IsIntLiteral(Strip(Split(text, ',')[i]))
    ensures ParseTemperatures(text).Failure?
  {
    NonBlankContains(Split(text, ','), i);
  }

  /** Every non-blank piece is among the kept pieces, stripped. */
  lemma {:induction false} NonBlankContains(parts: seq<string>, i: int)
    requires 0 <= i < |parts| && !AllSpace(parts[i])
    ensures Strip(parts[i]) in NonBlank(parts)
  {
    if i == 0 {
      assert Kept(parts[0]) == [Strip(parts[0])];
    } else {
      assert parts[1..][i - 1] == parts[i];
      NonBlankContains(parts[1..], i - 1);
    }
  }

  /** Whitespace-only texts, one per integer. */
  predicate Blank(pads: seq<string>) {
    forall k :: 0 <= k < |pads| ==> AllSpace(pads[k])
  }

  /** Each integer as text with its own whitespace on either side. */
  function Padded(xs: seq<int>, leads: seq<string>, trails: seq<string>): (r: seq<string>)
    requires |leads| == |xs| && |trails| == |xs|
    ensures |r| == |xs|
  {
    if xs == [] then []
    else [leads[0] + Show(xs[0]) + trails[0]] + Padded(xs[1..], leads[1..], trails[1..])
  }

  function ShowAll(xs: seq<int>): (r: seq<string>)
    ensures |r| == |xs|
  {
    if xs == [] then [] else [Show(xs[0])] + ShowAll(xs[1..])
  }

  /** A list of integers written with `","` between them and any whitespace
      around each, as in `"25, 30,37"` or `", ".join(...)`. */
  function Render(xs: seq<int>, leads: seq<string>, trails: seq<string>): string
    requires |leads| == |xs| && |trails| == |xs|
  {
    Join(Padded(xs, leads, trails), ',')
  }

  lemma {:induction false} NonBlankPadded(xs: seq<int>, leads: seq<string>, trails: seq<string>)
    requires |leads| == |xs| && |trails| == |xs|
    requires Blank(leads) && Blank(trails)
    ensures NonBlank(Padded(xs, leads, trails)) == ShowAll(xs)
  {
    if xs != [] {
      assert AllSpace(leads[0]) && AllSpace(trails[0]);
      StripPadded(leads[0], Show(xs[0]), trails[0]);
      NonBlankPadded(xs[1..], leads[1..], trails[1..]);
    }
  }

  /** Reading a token in front of a list that reads cleanly. */
  lemma ParseAllCons(t: string, ts: seq<string>, v: int, vs: seq<int>)
    requires ParseInt(t) == Some(v) && ParseAll(ts) == Success(vs)
    ensures ParseAll([t] + ts) == Success([v] + vs)
  {
    assert ([t] + ts)[0] == t && ([t] + ts)[1..] == ts;
  }

  lemma {:induction false} ParseAllShown(xs: seq<int>)
    ensures ParseAll(ShowAll(xs)) == Success(xs)
  {
    if xs != [] {
      ParseShow(xs[0]);
      ParseAllShown(xs[1..]);
      ParseAllCons(Show(xs[0]), ShowAll(xs[1..]), xs[0], xs[1..]);
      assert xs == [xs[0]] + xs[1..];
    }
  }

  /** Round trip: rendering a list and parsing the text gives the list back. */
  lemma RenderRoundTrip(xs: seq<int>, leads: seq<string>, trails: seq<string>)
    requires |leads| == |xs| && |trails| == |xs|
    requires Blank(leads) && Blank(trails)
    ensures ParseTemperatures(Render(xs, leads, trails)) == Success(xs)
  {
    var parts := Padded(xs, leads, trails);
    if xs == [] {
      assert Split("", ',') == [""];
      assert AllSpace("");
    } else {
      forall i | 0 <= i < |parts|
        ensures ',' !in parts[i]
      {
        PaddedPieceCommaFree(xs, leads, trails, i);
      }
      SplitJoin(parts, ',');
    }
    NonBlankPadded(xs, leads, trails);
    ParseAllShown(xs);
  }

  lemma {:induction false} PaddedPieceCommaFree(xs: seq<int>, leads: seq<string>, trails: seq<string>, i: nat)
    requires |leads| == |xs| && |trails| == |xs| && i < |xs|
    requires Blank(leads) && Blank(trails)
    ensures ',' !in Padded(xs, leads, trails)[i]
  {
    if i > 0 {
      PaddedPieceCommaFree(xs[1..], leads[1..], trails[1..], i - 1);
    } else {
      assert AllSpace(leads[0]) && AllSpace(trails[0]);
      assert ',' !in leads[0] && ',' !in trails[0];
      assert Padded(xs, leads, trails)[0] == leads[0] + Show(xs[0]) + trails[0];
    }
  }
}
