/** Choosing another name after a conflict: "name" becomes "name-2", then "name-3" and so on. */
module Mangle {
  import opened MdnsTypes
  import opened Bytes
  import opened Sequences

  const DASH: byte := 45
  const PLUS: byte := 43
  const ZERO: byte := 48
  const INT_MAX := 0x7FFF_FFFF

  predicate IsDigit(b: byte) { 48 <= b <= 57 }

  function DigitValue(b: byte): (v: nat)
    requires IsDigit(b)
    ensures v < 10
  {
    b as int - 48
  }

  predicate IsSpace(b: byte) { b == 32 || 9 <= b <= 13 }

  // ---- Decimal numbers ----

  function Decimal(n: nat): (r: seq<byte>)
    ensures |r| > 0
  {
    if n < 10 then [ZERO + n] else Decimal(n / 10) + [ZERO + n % 10]
  }

  function ValueOf(digits: seq<byte>): nat
    requires forall i :: 0 <= i < |digits| ==> IsDigit(digits[i])
  {
    if digits == [] then 0 else ValueOf(digits[..|digits| - 1]) * 10 + DigitValue(digits[|digits| - 1])
  }

  lemma {:induction false} DecimalDigits(n: nat)
    ensures forall i :: 0 <= i < |Decimal(n)| ==> IsDigit(Decimal(n)[i])
    ensures ValueOf(Decimal(n)) == n
  {
    if n >= 10 {
      DecimalDigits(n / 10);
      assert Decimal(n)[..|Decimal(n)| - 1] == Decimal(n / 10);
    } else {
      assert Decimal(n)[..0] == [];
    }
  }

  lemma {:induction false} NextLength(n: nat)
    ensures |Decimal(n + 1)| <= |Decimal(n)| + 1
  {
    if n >= 10 {
      NextLength(n / 10);
    }
  }

  lemma {:induction false} DecimalShort(digits: seq<byte>)
    requires digits != [] && forall i :: 0 <= i < |digits| ==> IsDigit(digits[i])
    ensures |Decimal(ValueOf(digits))| <= |digits|
  {
    var front := digits[..|digits| - 1];
    if front == [] {
      assert ValueOf(front) == 0;
    } else {
      DecimalShort(front);
      var v := ValueOf(digits);
      assert v / 10 == ValueOf(front);
    }
  }

  // ---- Taking a name apart ----

  function LastDash(s: seq<byte>): (p: Option<nat>)
    ensures p.Some? ==> p.value < |s|
  {
    if s == [] then None
    else if s[|s| - 1] == DASH then Some(|s| - 1)
    else LastDash(s[..|s| - 1])
  }

  function SpaceCount(s: seq<byte>): (n: nat)
    ensures n <= |s|
  {
    if s == [] || !IsSpace(s[0]) then 0 else 1 + SpaceCount(s[1..])
  }

  function DigitCount(s: seq<byte>): (n: nat)
    ensures n <= |s| && forall i :: 0 <= i < n ==> IsDigit(s[i])
  {
    if s == [] || !IsDigit(s[0]) then 0 else 1 + DigitCount(s[1..])
  }

  // A decimal number at the front of a text without "-": its value and how much of the text it
  // takes, which is nothing when there are no digits.
  datatype Number = Number(value: nat, used: nat)

  function Parse(s: seq<byte>): (r: Number)
    ensures r.used <= |s|
  {
    var spaces := SpaceCount(s);
    var sign := if spaces < |s| && s[spaces] == PLUS then 1 else 0;
    var rest := s[spaces + sign..];
    var n := DigitCount(rest);
    if n == 0 then Number(0, 0) else Number(ValueOf(rest[..n]), spaces + sign + n)
  }

  // What stands before the last dash, and the number behind it, if that is all there is.
  datatype Split = Split(base: seq<byte>, suffix: nat)

  function Numbered(s: seq<byte>): Option<Split>
  {
    var p := LastDash(s);
    if p.None? then None
    else
      var tail := s[p.value + 1..];
      if Parse(tail).used != |tail| then None else Some(Split(s[..p.value], Parse(tail).value))
  }

  function WithSuffix(base: seq<byte>, n: nat): seq<byte>
  {
    base + [DASH] + Decimal(n)
  }

  function MangleName(s: seq<byte>): seq<byte>
  {
    var split := Numbered(s);
    if split.None? then WithSuffix(s, 2) else WithSuffix(split.value.base, split.value.suffix + 1)
  }

  // ---- Building and taking apart undo each other ----

  lemma {:induction false} DigitsAll(s: seq<byte>)
    requires forall i :: 0 <= i < |s| ==> IsDigit(s[i])
    ensures DigitCount(s) == |s| && SpaceCount(s) == 0
  {
    if s != [] {
      DigitsAll(s[1..]);
    }
  }

  lemma {:induction false} LastDashIs(base: seq<byte>, tail: seq<byte>)
    requires DASH !in tail
    ensures LastDash(base + [DASH] + tail) == Some(|base|)
  {
    var s := base + [DASH] + tail;
    if tail == [] {
      assert s[|s| - 1] == DASH;
    } else {
      var front := tail[..|tail| - 1];
      assert s[|s| - 1] == tail[|tail| - 1] && tail[|tail| - 1] in tail;
      assert s[..|s| - 1] == base + [DASH] + front;
      LastDashIs(base, front);
    }
  }

  lemma SuffixParses(base: seq<byte>, n: nat)
    ensures Numbered(WithSuffix(base, n)) == Some(Split(base, n))
  {
    var tail := Decimal(n);
    DecimalDigits(n);
    LastDashIs(base, tail);
    ParsesDigits(tail, n);
    CutAt(base, tail);
  }

  lemma CutAt(base: seq<byte>, tail: seq<byte>)
    ensures var s := base + [DASH] + tail;
      s[|base| + 1..] == tail && s[..|base|] == base
  {
  }

  lemma ParsesDigits(digits: seq<byte>, n: nat)
    requires digits != [] && (forall i :: 0 <= i < |digits| ==> IsDigit(digits[i])) && ValueOf(digits) == n
    ensures Parse(digits) == Number(n, |digits|)
  {
    DigitsAll(digits);
    assert digits[0..] == digits && digits[..|digits|] == digits;
  }

  // A text that is taken for a number: blanks, perhaps a plus sign, and digits up to its end, of
  // which j are the first. An empty text is taken for zero.
  predicate SpellsNumber(text: seq<byte>, v: nat)
  {
    if text == [] then v == 0
    else exists j :: 0 <= j < |text| && Blank(text[..j]) && AllDigits(text[j..]) && ValueOf(text[j..]) == v
  }

  // Blanks, the last of which may be a plus sign.
  predicate Blank(s: seq<byte>)
  {
    forall i :: 0 <= i < |s| ==> IsSpace(s[i]) || (i == |s| - 1 && s[i] == PLUS)
  }

  predicate AllDigits(s: seq<byte>)
  {
    forall i :: 0 <= i < |s| ==> IsDigit(s[i])
  }

  lemma {:induction false} SpaceCountIs(s: seq<byte>, n: nat)
    requires n < |s| && (forall i :: 0 <= i < n ==> IsSpace(s[i])) && !IsSpace(s[n])
    ensures SpaceCount(s) == n
  {
    if n > 0 {
      SpaceCountIs(s[1..], n - 1);
    }
  }

  lemma {:induction false} SpacesCounted(s: seq<byte>)
    ensures forall i :: 0 <= i < SpaceCount(s) ==> IsSpace(s[i])
  {
    if s != [] && IsSpace(s[0]) {
      SpacesCounted(s[1..]);
      assert forall i :: 0 < i < SpaceCount(s) ==> s[i] == s[1..][i - 1];
    }
  }

  lemma ParsesWhole(text: seq<byte>)
    requires Parse(text).used == |text|
    ensures SpellsNumber(text, Parse(text).value)
  {
    var spaces := SpaceCount(text);
    SpacesCounted(text);
    var sign := if spaces < |text| && text[spaces] == PLUS then 1 else 0;
    var rest := text[spaces + sign..];
    if DigitCount(rest) > 0 {
      var j := spaces + sign;
      assert rest[..DigitCount(rest)] == rest;
      assert Blank(text[..j]);
    }
  }

  lemma NumberParses(text: seq<byte>, v: nat)
    requires SpellsNumber(text, v)
    ensures Parse(text) == Number(v, |text|)
  {
    if text != [] {
      var j :| 0 <= j < |text| && Blank(text[..j]) && AllDigits(text[j..]) && ValueOf(text[j..]) == v;
      var plus := j > 0 && text[j - 1] == PLUS;
      var spaces := if plus then j - 1 else j;
      assert forall i :: 0 <= i < j ==> text[i] == text[..j][i];
      assert text[j] == text[j..][0];
      SpaceCountIs(text, spaces);
      DigitsAll(text[j..]);
      assert text[j..][..|text[j..]|] == text[j..];
    }
  }

  /** The suffix is what stands behind the last dash, if the whole of that is a number; a name
      without a dash has none. */
  lemma NumberedIff(base: seq<byte>, tail: seq<byte>, v: nat)
    requires DASH !in tail
    ensures Numbered(base + [DASH] + tail) == Some(Split(base, v)) <==> SpellsNumber(tail, v)
    ensures Numbered(tail) == None
  {
    LastDashIs(base, tail);
    NoDash(tail);
    CutAt(base, tail);
    if SpellsNumber(tail, v) {
      NumberParses(tail, v);
    }
    if Parse(tail).used == |tail| {
      ParsesWhole(tail);
    }
  }

  lemma {:induction false} NoDash(s: seq<byte>)
    requires DASH !in s
    ensures LastDash(s) == None
  {
    if s != [] {
      assert s[|s| - 1] in s;
      NoDash(s[..|s| - 1]);
    }
  }

  /** So a name whose last part holds anything but blanks, plus signs and digits, even if it begins
      with digits, is kept whole. */
  lemma KeptWhole(base: seq<byte>, tail: seq<byte>, i: nat)
    requires DASH !in tail && i < |tail| && !IsSpace(tail[i]) && tail[i] != PLUS && !IsDigit(tail[i])
    ensures var s := base + [DASH] + tail;
      MangleName(s) == s + [DASH] + [ZERO + 2]
  {
    var s := base + [DASH] + tail;
    LastDashIs(base, tail);
    CutAt(base, tail);
    assert !SpellsNumber(tail, Parse(tail).value) by {
      forall j | 0 <= j < |tail| ensures !(Blank(tail[..j]) && AllDigits(tail[j..])) {
        if i < j {
          assert tail[..j][i] == tail[i];
        } else {
          assert tail[j..][i - j] == tail[i];
        }
      }
    }
    if Parse(tail).used == |tail| {
      ParsesWhole(tail);
    }
  }

  // ---- Mangling again and again ----

  // Base and number of the first mangled name.
  function First(s: seq<byte>): Split
  {
    var split := Numbered(s);
    if split.None? then Split(s, 2) else split.value.(suffix := split.value.suffix + 1)
  }

  // The name after a number of manglings.
  function Mangled(s: seq<byte>, times: nat): seq<byte>
  {
    if times == 0 then s else MangleName(Mangled(s, times - 1))
  }

  // What it comes to when the first mangling leads to the given base and number.
  function Chain(first: Split, times: nat): seq<byte>
    requires times > 0
  {
    WithSuffix(first.base, first.suffix + times - 1)
  }

  lemma ChainParses(first: Split, times: nat)
    requires times > 0
    ensures Numbered(Chain(first, times)) == Some(Split(first.base, first.suffix + times - 1))
  {
    SuffixParses(first.base, first.suffix + times - 1);
  }

  lemma ChainNext(first: Split, times: nat)
    requires times > 0
    ensures MangleName(Chain(first, times)) == Chain(first, times + 1)
  {
    ChainParses(first, times);
  }

  lemma {:induction false} ChainIterates(s: seq<byte>, first: Split, times: nat)
    requires times > 0 && MangleName(s) == Chain(first, 1)
    ensures Mangled(s, times) == Chain(first, times)
  {
    if times == 1 {
      assert Mangled(s, 0) == s;
    } else {
      ChainIterates(s, first, times - 1);
      ChainNext(first, times - 1);
    }
  }

  lemma MangledFirst(s: seq<byte>)
    ensures MangleName(s) == Chain(First(s), 1)
  {
  }

  /** In closed form, the base stays and the suffix goes up by one each time. */
  lemma MangledIterates(s: seq<byte>, times: nat)
    requires times > 0
    ensures Mangled(s, times) == Chain(First(s), times)
  {
    MangledFirst(s);
    ChainIterates(s, First(s), times);
  }

  // The n-th mangling of a name without a numeric suffix ends in n + 1.
  lemma PlainNameCounts(s: seq<byte>, times: nat)
    requires Numbered(s).None? && times > 0
    ensures Mangled(s, times) == WithSuffix(s, times + 1)
  {
    MangledIterates(s, times);
  }

  lemma ChainsDiffer(first: Split, i: nat, j: nat)
    requires 0 < i < j
    ensures Chain(first, i) != Chain(first, j)
  {
    ChainParses(first, i);
    ChainParses(first, j);
  }

  lemma NotOnChain(s: seq<byte>, times: nat)
    requires times > 0
    ensures s != Chain(First(s), times)
  {
    ChainParses(First(s), times);
  }

  /** Mangling never comes back to an earlier name. */
  lemma NeverAgain(s: seq<byte>, i: nat, j: nat)
    requires i < j
    ensures Mangled(s, i) != Mangled(s, j)
  {
    MangledIterates(s, j);
    if i == 0 {
      NotOnChain(s, j);
    } else {
      MangledIterates(s, i);
      ChainsDiffer(First(s), i, j);
    }
  }

  // More distinct things than a set has members cannot all be in the set.
  lemma {:induction false} OneOutside<T>(xs: seq<T>, taken: set<T>) returns (i: nat)
    requires |xs| > |taken| && forall i, j :: 0 <= i < j < |xs| ==> xs[i] != xs[j]
    ensures i < |xs| && xs[i] !in taken
  {
    var last := |xs| - 1;
    if xs[last] !in taken {
      i := last;
    } else {
      i := OneOutside(xs[..last], taken - {xs[last]});
    }
  }

  /** Whatever finite set of names is taken, at most that many manglings lead out of it. */
  lemma EscapesTaken(s: seq<byte>, taken: set<seq<byte>>) returns (n: nat)
    ensures n <= |taken| && Mangled(s, n) !in taken
  {
    var names := seq(|taken| + 1, (i: nat) => Mangled(s, i));
    forall i, j | 0 <= i < j < |names| ensures names[i] != names[j] {
      NeverAgain(s, i, j);
    }
    n := OneOutside(names, taken);
  }

  // ---- Allocation ----

  // Bytes allocated for the new name, its terminator included.
  function Allocated(s: seq<byte>): nat
  {
    if Numbered(s).None? then |s| + 3 else |s| + 2
  }

  /** The new name and its terminator fit what is allocated. */
  lemma FitsAllocation(s: seq<byte>)
    ensures |MangleName(s)| + 1 <= Allocated(s)
  {
    if Numbered(s).Some? {
      NextShort(s);
    } else {
      assert |Decimal(2)| == 1;
    }
  }

  lemma NextShort(s: seq<byte>)
    requires Numbered(s).Some?
    ensures |Numbered(s).value.base| + |Decimal(Numbered(s).value.suffix + 1)| <= |s|
  {
    NumberShort(s[LastDash(s).value + 1..]);
  }

  lemma NumberShort(tail: seq<byte>)
    ensures |Decimal(Parse(tail).value + 1)| <= |tail| + 1
  {
    var spaces := SpaceCount(tail);
    var sign := if spaces < |tail| && tail[spaces] == PLUS then 1 else 0;
    var digits := tail[spaces + sign..];
    var n := DigitCount(digits);
    if n > 0 {
      DecimalShort(digits[..n]);
      NextLength(ValueOf(digits[..n]));
    }
  }

  // ---- As the source computes it ----

  method FindLastDash(s: seq<byte>) returns (p: Option<nat>)
    ensures p == LastDash(s)
  {
    var i := |s|;
    assert s[..i] == s;
    while i > 0
      invariant 0 <= i <= |s| && LastDash(s) == LastDash(s[..i])
    {
      if s[i - 1] == DASH {
        return Some(i - 1);
      }
      assert s[..i][..i - 1] == s[..i - 1];
      i := i - 1;
    }
    return None;
  }

  // strtol, base ten, where no "-" occurs.
  method ParseNumber(s: seq<byte>) returns (value: nat, end: nat)
    ensures Number(value, end) == Parse(s)
  {
    var i := 0;
    while i < |s| && IsSpace(s[i])
      invariant 0 <= i <= |s| && SpaceCount(s) == i + SpaceCount(s[i..])
    {
      assert s[i..][1..] == s[i + 1..];
      i := i + 1;
    }
    if i < |s| && s[i] == PLUS {
      i := i + 1;
    }
    var n;
    value, n := ParseDigits(s[i..]);
    end := if n == 0 then 0 else i + n;
  }

  // The digits at the front.
  method ParseDigits(s: seq<byte>) returns (value: nat, n: nat)
    ensures n == DigitCount(s) && value == ValueOf(s[..n])
  {
    n := 0;
    value := 0;
    while n < |s| && IsDigit(s[n])
      invariant 0 <= n <= |s| && DigitCount(s) == n + DigitCount(s[n..])
      invariant (forall j :: 0 <= j < n ==> IsDigit(s[j])) && value == ValueOf(s[..n])
    {
      assert s[n..][1..] == s[n + 1..];
      assert s[..n + 1][..n] == s[..n];
      value := value * 10 + DigitValue(s[n]);
      n := n + 1;
    }
  }

  lemma DigitOff(left: nat, text: seq<byte>)
    requires left > 0
    ensures var more := [ZERO + left % 10] + text;
      Decimal(left) + text == if left / 10 > 0 then Decimal(left / 10) + more else more
  {
    if left >= 10 {
      Regroup(Decimal(left / 10), [ZERO + left % 10], text);
    }
  }

  method PrintNumber(n: nat) returns (text: seq<byte>)
    ensures text == Decimal(n)
  {
    text := [ZERO + n % 10];
    var left := n / 10;
    while left > 0
      invariant Decimal(n) == if left > 0 then Decimal(left) + text else text
    {
      DigitOff(left, text);
      text := [ZERO + left % 10] + text;
      left := left / 10;
    }
  }

  method MangleInto(s: seq<byte>) returns (name: seq<byte>)
    requires Numbered(s).Some? ==> Numbered(s).value.suffix < INT_MAX
    ensures name == MangleName(s)
  {
    var p := FindLastDash(s);
    var suffix := 2;
    if p.Some? {
      var value, end := ParseNumber(s[p.value + 1..]);
      if end != |s| - (p.value + 1) {
        p := None;
      } else {
        suffix := value + 1;
      }
    }
    var digits := PrintNumber(suffix);
    name := (if p.None? then s else s[..p.value]) + [DASH] + digits;
  }
}
