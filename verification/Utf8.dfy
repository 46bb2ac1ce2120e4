/** UTF-8 as section 4 of RFC 3629 gives it, and the end of a byte string as the line reader sees it. */
module Utf8 {
  import opened Bytes

  predicate Tail(b: byte) {
    0x80 <= b <= 0xBF
  }

  /** How long a character is by its first byte; 0 for a byte that starts none. */
  function CharLen(lead: byte): nat {
    if lead < 0x80 then 1
    else if 0xC2 <= lead <= 0xDF then 2
    else if 0xE0 <= lead <= 0xEF then 3
    else if 0xF0 <= lead <= 0xF4 then 4
    else 0
  }

  predicate SecondOk(lead: byte, b: byte) {
    if lead == 0xE0 then 0xA0 <= b <= 0xBF
    else if lead == 0xED then 0x80 <= b <= 0x9F
    else if lead == 0xF0 then 0x90 <= b <= 0xBF
    else if lead == 0xF4 then 0x80 <= b <= 0x8F
    else Tail(b)
  }

  predicate ValidChar(c: seq<byte>) {
    && c != [] && |c| == CharLen(c[0])
    && (|c| > 1 ==> SecondOk(c[0], c[1]))
    && (|c| > 2 ==> Tail(c[2]))
    && (|c| > 3 ==> Tail(c[3]))
  }

  /** Every byte that is not a tail byte may start a character. */
  predicate StartsRune(b: byte) {
    !Tail(b)
  }

  /** DecodeRune finds a whole valid character at the front: its length, else 0. */
  function Decoded(b: seq<byte>): nat {
    if b == [] then 0
    else if 0 < CharLen(b[0]) <= |b| && ValidChar(b[..CharLen(b[0])]) then CharLen(b[0]) else 0
  }

  /** The nearest byte at or before i, no earlier than lim, that may start a character; else lim - 1. */
  function ScanBack(b: seq<byte>, i: int, lim: nat): (s: int)
    requires i < |b| && lim - 1 <= i
    ensures lim - 1 <= s <= i
    ensures s >= lim ==> StartsRune(b[s])
    ensures forall j | s < j <= i && j >= lim :: Tail(b[j])
    decreases i - lim + 1
  {
    if i < lim then i else if StartsRune(b[i]) then i else ScanBack(b, i - 1, lim)
  }

  /** DecodeLastRune reports no broken tail. */
  predicate EndsWell(b: seq<byte>)
    requires b != []
  {
    var end := |b|;
    b[end - 1] < 0x80 ||
    var lim: nat := if end < 4 then 0 else end - 4;
    var s0 := ScanBack(b, end - 2, lim);
    var s := if s0 < 0 then 0 else s0;
    Decoded(b[s..]) > 0 && s + Decoded(b[s..]) == end
  }

  lemma CharShape(c: seq<byte>)
    requires ValidChar(c)
    ensures 1 <= |c| <= 4 && |c| == CharLen(c[0]) && StartsRune(c[0])
    ensures |c| > 1 ==> c[0] >= 0xC2
    ensures forall j | 0 < j < |c| :: Tail(c[j])
  {
  }

  /** Looking back from the last byte but one, the scan stops at the lead byte. */
  lemma ScanFinds(b: seq<byte>, at: nat)
    requires at + 2 <= |b| <= at + 4 && StartsRune(b[at]) && forall j | at < j < |b| :: Tail(b[j])
    ensures ScanBack(b, |b| - 2, if |b| < 4 then 0 else |b| - 4) == at
  {
  }

  lemma EndsWellAt(b: seq<byte>, at: nat)
    requires at + 2 <= |b| <= at + 4 && StartsRune(b[at]) && forall j | at < j < |b| :: Tail(b[j])
    ensures EndsWell(b) <==> Decoded(b[at..]) == |b| - at
  {
    hide Decoded, ScanBack;
    ScanFinds(b, at);
  }

  /** A string that ends in a whole character ends well. */
  lemma WholeEndsWell(x: seq<byte>, c: seq<byte>)
    requires ValidChar(c)
    ensures EndsWell(x + c)
  {
    hide ValidChar, EndsWell, ScanBack, CharLen;
    var b := x + c;
    CharShape(c);
    if |c| > 1 {
      forall j | |x| < j < |b| ensures Tail(b[j]) {
        assert b[j] == c[j - |x|];
      }
      EndsWellAt(b, |x|);
      assert b[|x|..] == c && c[..|c|] == c;
    } else {
      assert b[|b| - 1] == c[0];
      AsciiEndsWell(b, c);
    }
  }

  lemma AsciiEndsWell(b: seq<byte>, c: seq<byte>)
    requires ValidChar(c) && |c| == 1 && b != [] && b[|b| - 1] == c[0]
    ensures EndsWell(b)
  {
  }

  /** One that stops inside a character does not. */
  lemma CutEndsBadly(x: seq<byte>, c: seq<byte>, k: nat)
    requires ValidChar(c) && 0 < k < |c|
    ensures !EndsWell(x + c[..k])
  {
    hide ValidChar, EndsWell, ScanBack, CharLen;
    var b := x + c[..k];
    CharShape(c);
    if k > 1 {
      forall j | |x| < j < |b| ensures Tail(b[j]) {
        assert b[j] == c[j - |x|];
      }
      EndsWellAt(b, |x|);
      assert b[|x|..] == c[..k] && c[..k][0] == c[0];
    } else {
      assert b[|b| - 1] == c[0];
      LeadEndsBadly(b);
    }
  }

  lemma LeadEndsBadly(b: seq<byte>)
    requires b != [] && b[|b| - 1] >= 0xC2 && CharLen(b[|b| - 1]) > 1
    ensures !EndsWell(b)
  {
    hide Decoded, ScanBack;
    var end := |b|;
    var lim: nat := if end < 4 then 0 else end - 4;
    var s0 := ScanBack(b, end - 2, lim);
    var s := if s0 < 0 then 0 else s0;
    TailsInside(b[s..]);
    assert b[s..][|b[s..]| - 1] == b[end - 1];
  }

  /** A character found at the front that reaches the end has only tail bytes after its first. */
  lemma TailsInside(b: seq<byte>)
    ensures Decoded(b) > 1 && Decoded(b) == |b| ==> Tail(b[|b| - 1])
    ensures Decoded(b) == 1 && |b| == 1 ==> b[0] < 0x80
  {
    if b != [] && Decoded(b) == |b| {
      assert b[..|b|] == b;
    }
  }

  // ---- trimToRune ----

  function Trimmed(b: seq<byte>): (t: seq<byte>)
    ensures t <= b
    decreases |b|
  {
    if b == [] || EndsWell(b) then b else Trimmed(b[..|b| - 1])
  }

  method TrimToRune(b: seq<byte>, truncated: bool) returns (t: seq<byte>)
    ensures t == if truncated then Trimmed(b) else b
  {
    hide EndsWell;
    t := b;
    if !truncated {
      return;
    }
    while |t| > 0
      invariant Trimmed(t) == Trimmed(b)
      decreases |t|
    {
      if EndsWell(t) {
        return;
      }
      t := t[..|t| - 1];
    }
  }

  function Flatten(chars: seq<seq<byte>>): seq<byte> {
    if chars == [] then [] else Flatten(chars[..|chars| - 1]) + chars[|chars| - 1]
  }

  ghost predicate Chars(chars: seq<seq<byte>>) {
    forall c | c in chars :: ValidChar(c)
  }

  lemma {:induction false} TrimsPartial(x: seq<byte>, c: seq<byte>, k: nat)
    requires ValidChar(c) && k < |c| && (x == [] || EndsWell(x))
    ensures Trimmed(x + c[..k]) == x
    decreases k
  {
    hide EndsWell, ValidChar;
    if k == 0 {
      assert x + c[..0] == x;
    } else {
      CutEndsBadly(x, c, k);
      assert (x + c[..k])[..|x| + k - 1] == x + c[..k - 1];
      TrimsPartial(x, c, k - 1);
    }
  }

  /** How many whole characters fit in max bytes. */
  function Fitting(chars: seq<seq<byte>>, max: nat): (k: nat)
    ensures k <= |chars|
  {
    if chars == [] then 0
    else if |Flatten(chars)| <= max then |chars|
    else Fitting(chars[..|chars| - 1], max)
  }

  /** Fitting is the most that fits. */
  lemma {:induction false} FittingIsMost(chars: seq<seq<byte>>, max: nat)
    ensures var k := Fitting(chars, max);
            && |Flatten(chars[..k])| <= max
            && (k < |chars| ==> |Flatten(chars[..k + 1])| > max)
    decreases |chars|
  {
    if |Flatten(chars)| <= max {
      assert chars[..|chars|] == chars;
    } else {
      var n := |chars| - 1;
      FittingIsMost(chars[..n], max);
      var k := Fitting(chars, max);
      assert chars[..n][..k] == chars[..k];
      if k < n {
        assert chars[..n][..k + 1] == chars[..k + 1];
      } else {
        assert chars[..n + 1] == chars;
      }
    }
  }

  lemma {:induction false} FlattenPrefix(chars: seq<seq<byte>>, k: nat)
    requires k <= |chars|
    ensures Flatten(chars[..k]) <= Flatten(chars)
    decreases |chars|
  {
    if k < |chars| {
      var n := |chars| - 1;
      FlattenPrefix(chars[..n], k);
      assert chars[..n][..k] == chars[..k];
    } else {
      assert chars[..k] == chars;
    }
  }

  lemma WholeEnd(chars: seq<seq<byte>>)
    requires Chars(chars) && chars != []
    ensures Flatten(chars) != [] && EndsWell(Flatten(chars))
  {
    var n := |chars| - 1;
    WholeEndsWell(Flatten(chars[..n]), chars[n]);
  }

  /** Cut anywhere, valid UTF-8 is trimmed back to exactly the whole characters that fit. */
  lemma TrimLaw(chars: seq<seq<byte>>, max: nat)
    requires Chars(chars) && max <= |Flatten(chars)|
    ensures Trimmed(Flatten(chars)[..max]) == Flatten(chars[..Fitting(chars, max)])
  {
    hide EndsWell, ValidChar;
    var s, k := Flatten(chars), Fitting(chars, max);
    FittingIsMost(chars, max);
    var x := Flatten(chars[..k]);
    FlattenPrefix(chars, k);
    if k > 0 {
      WholeEnd(chars[..k]);
    }
    if k == |chars| {
      assert chars[..k] == chars && s[..max] == s;
    } else {
      var c := chars[k];
      assert c in chars;
      assert chars[..k + 1][..k] == chars[..k] && chars[..k + 1][k] == c;
      FlattenPrefix(chars, k + 1);
      assert Flatten(chars[..k + 1]) == x + c;
      assert s[..max] == x + c[..max - |x|];
      TrimsPartial(x, c, max - |x|);
    }
  }
}
