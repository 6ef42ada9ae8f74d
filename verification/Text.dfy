/** Decimal numbers and delimiters, as an output stream writes them and as a reader takes them back. */
module Text {
  import opened Wrappers

  function NatText(n: nat): string {
    if n < 10 then [DigitChar(n)] else NatText(n / 10) + [DigitChar(n % 10)]
  }

  function IntText(i: int): string {
    if i < 0 then "-" + NatText(-i) else NatText(i)
  }

  function DigitChar(d: nat): char
    requires d < 10
  {
    "0123456789"[d]
  }

  predicate IsDigit(c: char) {
    '0' <= c <= '9'
  }

  function ParseNat(s: string): Option<nat> {
    if s == "" || !IsDigit(s[|s| - 1]) then
      None
    else
      var digit := s[|s| - 1] as int - '0' as int;
      if |s| == 1 then
        Some(digit)
      else
        var high :- ParseNat(s[..|s| - 1]);
        Some(10 * high + digit)
  }

  function ParseInt(s: string): Option<int> {
    if s != "" && s[0] == '-' then
      match ParseNat(s[1..])
      case Some(n) => Some(-(n as int))
      case None => None
    else
      match ParseNat(s)
      case Some(n) => Some(n as int)
      case None => None
  }

  lemma {:induction false} NatTextParses(n: nat)
    ensures ParseNat(NatText(n)) == Some(n)
    ensures NatText(n) != "" && forall c :: c in NatText(n) ==> IsDigit(c)
  {
    if n >= 10 {
      NatTextParses(n / 10);
      assert NatText(n)[..|NatText(n)| - 1] == NatText(n / 10);
    }
  }

  lemma IntTextParses(i: int)
    ensures ParseInt(IntText(i)) == Some(i)
    ensures ' ' !in IntText(i) && '\n' !in IntText(i)
  {
    if i < 0 {
      var digits := NatText(-i);
      NatTextParses(-i);
      assert IntText(i) == "-" + digits;
      assert ("-" + digits)[1..] == digits;
      assert ParseNat(digits) == Some(-i);
    } else {
      NatTextParses(i);
      assert IsDigit(NatText(i)[0]);
    }
  }

  /** The text before and after the first occurrence of a delimiter. */
  function Cut(s: string, c: char): (r: Option<(string, string)>)
    ensures r.None? <==> c !in s
    ensures r.Some? ==> c !in r.value.0 && s == r.value.0 + [c] + r.value.1
  {
    if s == "" then
      None
    else if s[0] == c then
      Some(("", s[1..]))
    else
      var (head, tail) :- Cut(s[1..], c);
      Some(([s[0]] + head, tail))
  }

  lemma CutAt(head: string, c: char, tail: string)
    requires c !in head
    ensures Cut(head + ([c] + tail), c) == Some((head, tail))
  {
    var s := head + ([c] + tail);
    assert s[|head|] == c;
    var (h, t) := Cut(s, c).value;
    assert s[|h|] == c;
    assert forall k :: 0 <= k < |head| ==> s[k] == head[k];
    assert forall k :: 0 <= k < |h| ==> s[k] == h[k];
    assert |h| == |head|;
    assert h == s[..|head|] == head;
    assert t == s[|head| + 1..] == tail;
  }
}
