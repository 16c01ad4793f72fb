/** The least value that parentheses can give a sum and difference of numbers, read from its text. */
module LostParentheses {
  // ----- expressions

  /** A fully parenthesised expression. */
  datatype Tree = Num(value: nat) | Bin(left: Tree, minus: bool, right: Tree)

  function Eval(t: Tree): int {
    match t
    case Num(n) => n
    case Bin(l, minus, r) => if minus then Eval(l) - Eval(r) else Eval(l) + Eval(r)
  }

  /** Numbers and signs from left to right, without the parentheses. */
  function Nums(t: Tree): seq<nat> {
    match t case Num(n) => [n] case Bin(l, _, r) => Nums(l) + Nums(r)
  }

  function Signs(t: Tree): seq<bool> {
    match t case Num(_) => [] case Bin(l, minus, r) => Signs(l) + [minus] + Signs(r)
  }

  ghost predicate Parenthesises(t: Tree, nums: seq<nat>, signs: seq<bool>) {
    Nums(t) == nums && Signs(t) == signs
  }

  ghost predicate WellFormed(nums: seq<nat>, signs: seq<bool>) {
    |nums| == |signs| + 1
  }

  function Sum(s: seq<nat>): nat {
    if s == [] then 0 else s[0] + Sum(s[1..])
  }

  /** The sum of the numbers before the first minus. */
  function Lead(nums: seq<nat>, signs: seq<bool>): nat {
    if nums == [] then 0
    else nums[0] + (if signs == [] || signs[0] then 0 else Lead(nums[1..], signs[1..]))
  }

  /** Everything before the first minus less everything after it. */
  function Least(nums: seq<nat>, signs: seq<bool>): int {
    2 * Lead(nums, signs) - Sum(nums)
  }

  lemma {:induction false} SumOfConcat(a: seq<nat>, b: seq<nat>)
    ensures Sum(a + b) == Sum(a) + Sum(b)
  {
    if a == [] {
      assert a + b == b;
    } else {
      assert (a + b)[0] == a[0] && (a + b)[1..] == a[1..] + b;
      SumOfConcat(a[1..], b);
    }
  }

  lemma {:induction false} LeadIsPart(nums: seq<nat>, signs: seq<bool>)
    ensures Lead(nums, signs) <= Sum(nums)
  {
    if nums != [] && signs != [] && !signs[0] { LeadIsPart(nums[1..], signs[1..]); }
  }

  /** A minus stops the lead for good; without one it runs on into the second part. */
  lemma {:induction false} LeadOfConcat(a: seq<nat>, s: seq<bool>, minus: bool, b: seq<nat>, t: seq<bool>)
    requires WellFormed(a, s) && WellFormed(b, t)
    ensures Lead(a + b, s + [minus] + t) == if true in s || minus then Lead(a, s) else Sum(a) + Lead(b, t)
  {
    assert (a + b)[0] == a[0] && (a + b)[1..] == a[1..] + b;
    if s == [] {
      assert a[1..] + b == b && (s + [minus] + t)[0] == minus && (s + [minus] + t)[1..] == t;
      assert Sum(a) == a[0] + Sum(a[1..]) && a[1..] == [];
    } else {
      assert (s + [minus] + t)[0] == s[0] && (s + [minus] + t)[1..] == s[1..] + [minus] + t;
      assert s == [s[0]] + s[1..];
      LeadOfConcat(a[1..], s[1..], minus, b, t);
    }
  }

  /** Without a minus, the lead is everything. */
  lemma {:induction false} NoMinus(nums: seq<nat>, signs: seq<bool>)
    requires WellFormed(nums, signs) && true !in signs
    ensures Lead(nums, signs) == Sum(nums)
  {
    if signs != [] {
      assert signs == [signs[0]] + signs[1..];
      NoMinus(nums[1..], signs[1..]);
    } else {
      assert nums[1..] == [];
    }
  }

  lemma {:induction false} TreeIsWellFormed(t: Tree)
    ensures WellFormed(Nums(t), Signs(t))
  {
    if t.Bin? { TreeIsWellFormed(t.left); TreeIsWellFormed(t.right); }
  }

  /** No way to put parentheses gives less, and none gives more than the sum of all numbers. */
  lemma {:induction false} NoneGivesLess(t: Tree)
    ensures Least(Nums(t), Signs(t)) <= Eval(t) <= Sum(Nums(t))
  {
    match t
    case Num(n) => assert Nums(t)[1..] == [];
    case Bin(l, minus, r) =>
      NoneGivesLess(l);
      NoneGivesLess(r);
      TreeIsWellFormed(l);
      TreeIsWellFormed(r);
      SumOfConcat(Nums(l), Nums(r));
      LeadOfConcat(Nums(l), Signs(l), minus, Nums(r), Signs(r));
      LeadIsPart(Nums(l), Signs(l));
      if true !in Signs(l) { NoMinus(Nums(l), Signs(l)); }
  }

  // ----- parentheses that reach the least value

  /** All numbers added. */
  function SumTree(nums: seq<nat>): Tree
    requires nums != []
  {
    if |nums| == 1 then Num(nums[0]) else Bin(SumTree(nums[..|nums| - 1]), false, Num(nums[|nums| - 1]))
  }

  lemma {:induction false} SumTreeFacts(nums: seq<nat>, signs: seq<bool>)
    requires WellFormed(nums, signs) && true !in signs
    ensures Parenthesises(SumTree(nums), nums, signs) && Eval(SumTree(nums)) == Sum(nums)
    decreases |nums|
  {
    if |nums| == 1 {
      assert nums == [nums[0]] && nums[1..] == [] && signs == [];
    } else {
      var k := |nums| - 1;
      forall i | 0 <= i < |signs| ensures !signs[i] { assert signs[i] in signs; }
      SumTreeFacts(nums[..k], signs[..k - 1]);
      assert nums == nums[..k] + [nums[k]] && signs == signs[..k - 1] + [false];
      SumOfConcat(nums[..k], [nums[k]]);
      assert [nums[k]][1..] == [];
    }
  }

  /** Everything between two minus signs is added up before it is taken away. */
  lemma {:induction false} LeastIsReached(nums: seq<nat>, signs: seq<bool>) returns (t: Tree)
    requires WellFormed(nums, signs)
    ensures Parenthesises(t, nums, signs) && Eval(t) == Least(nums, signs)
    decreases |nums|
  {
    if true !in signs {
      SumTreeFacts(nums, signs);
      NoMinus(nums, signs);
      t := SumTree(nums);
    } else {
      var k := LastMinus(signs);
      var before := LeastIsReached(nums[..k + 1], signs[..k]);
      SumTreeFacts(nums[k + 1..], signs[k + 1..]);
      t := Bin(before, true, SumTree(nums[k + 1..]));
      assert nums == nums[..k + 1] + nums[k + 1..];
      assert signs == signs[..k] + [true] + signs[k + 1..];
      LeadOfConcat(nums[..k + 1], signs[..k], true, nums[k + 1..], signs[k + 1..]);
      SumOfConcat(nums[..k + 1], nums[k + 1..]);
    }
  }

  lemma {:induction false} LastMinus(signs: seq<bool>) returns (k: nat)
    requires true in signs
    ensures k < |signs| && signs[k] && true !in signs[k + 1..]
    decreases |signs|
  {
    k := |signs| - 1;
    if !signs[k] {
      assert signs == signs[..k] + [false];
      var j := LastMinus(signs[..k]);
      assert signs[j + 1..] == signs[..k][j + 1..] + [false];
      k := j;
    }
  }

  // ----- the text

  /** Python's `split` at one character. */
  function Split(s: string, c: char): (r: seq<string>)
    ensures r != []
  {
    if s == "" then [""]
    else
      var rest := Split(s[1..], c);
      if s[0] == c then [""] + rest else [[s[0]] + rest[0]] + rest[1..]
  }

  function Join(ps: seq<string>, c: char): string {
    if ps == [] then "" else if |ps| == 1 then ps[0] else ps[0] + [c] + Join(ps[1..], c)
  }

  /** The parts hold no separator, and joined by it they are the text again. */
  lemma {:induction false} SplitJoins(s: string, c: char)
    ensures Join(Split(s, c), c) == s && forall p :: p in Split(s, c) ==> c !in p
  {
    if s != "" {
      var rest := Split(s[1..], c);
      SplitJoins(s[1..], c);
      assert rest == [rest[0]] + rest[1..] && s == [s[0]] + s[1..];
      if s[0] == c {
        assert ([""] + rest)[1..] == rest;
      } else {
        var first := [s[0]] + rest[0];
        assert ([first] + rest[1..])[1..] == rest[1..];
        assert |rest| > 1 ==> first + [c] + Join(rest[1..], c) == [s[0]] + (rest[0] + [c] + Join(rest[1..], c));
      }
    }
  }

  predicate IsNumeral(s: string) {
    s != "" && forall c :: c in s ==> '0' <= c <= '9'
  }

  /** `int`. */
  function Parse(s: string): nat {
    if s == "" then 0 else Parse(s[..|s| - 1]) * 10 + (if '0' <= s[|s| - 1] <= '9' then (s[|s| - 1] - '0') as nat else 0)
  }

  function Pow10(k: nat): nat {
    if k == 0 then 1 else 10 * Pow10(k - 1)
  }

  function Digit(d: nat): char
    requires d < 10
  {
    '0' + d as char
  }

  /** The decimal numeral of a number. */
  function Decimal(n: nat): string {
    if n < 10 then [Digit(n)] else Decimal(n / 10) + [Digit(n % 10)]
  }

  /** `int` reads what decimal printing writes. */
  lemma {:induction false} ParseOfDecimal(n: nat)
    ensures IsNumeral(Decimal(n)) && Parse(Decimal(n)) == n
  {
    var s := Decimal(n);
    if n < 10 {
      assert s[..|s| - 1] == "";
    } else {
      ParseOfDecimal(n / 10);
      assert s[..|s| - 1] == Decimal(n / 10);
      assert forall c :: c in s ==> c in Decimal(n / 10) || c == Digit(n % 10);
    }
  }

  /** And it reads nothing else as that number, but for leading zeros. */
  lemma {:induction false} DecimalOfParse(s: string)
    requires IsNumeral(s) && (|s| == 1 || s[0] != '0')
    ensures Decimal(Parse(s)) == s && (|s| > 1 ==> Parse(s) >= 10) && (s[0] != '0' ==> Parse(s) > 0)
    decreases |s|
  {
    var front, c := s[..|s| - 1], s[|s| - 1];
    assert s == front + [c] && c in s;
    if front == "" {
      assert Parse(front) == 0;
    } else {
      assert s[0] == front[0] && forall x :: x in front ==> x in s;
      DecimalOfParse(front);
      assert (Parse(front) * 10 + (c - '0') as nat) / 10 == Parse(front);
    }
  }

  /** Each digit counts by its position. */
  lemma {:induction false} ParseConcat(a: string, b: string)
    ensures Parse(a + b) == Parse(a) * Pow10(|b|) + Parse(b)
    decreases |b|
  {
    if b == "" {
      assert a + b == a;
    } else {
      var front := b[..|b| - 1];
      ParseConcat(a, front);
      assert (a + b)[..|a + b| - 1] == a + front;
      assert Parse(a) * (10 * Pow10(|front|)) == Parse(a) * Pow10(|front|) * 10;
    }
  }

  lemma LeadingZeros(s: string)
    ensures Parse("0" + s) == Parse(s)
  {
    ParseConcat("0", s);
    assert "0"[..0] == "";
  }

  function ParseAll(ds: seq<string>): seq<nat> {
    if ds == [] then [] else [Parse(ds[0])] + ParseAll(ds[1..])
  }

  /** Numerals joined by signs. */
  function Text(ds: seq<string>, signs: seq<bool>): string {
    if ds == [] then "" else if signs == [] then ds[0]
    else ds[0] + (if signs[0] then "-" else "+") + Text(ds[1..], signs[1..])
  }

  ghost predicate IsInput(s: string, ds: seq<string>, signs: seq<bool>) {
    |ds| == |signs| + 1 && (forall d :: d in ds ==> IsNumeral(d)) && s == Text(ds, signs)
  }

  lemma {:induction false} SplitSkips(d: string, s: string, c: char)
    requires c !in d
    ensures Split(d + s, c) == [d + Split(s, c)[0]] + Split(s, c)[1..]
  {
    var r := Split(s, c);
    if d == "" {
      assert d + s == s && d + r[0] == r[0];
      assert r == [r[0]] + r[1..];
    } else {
      assert (d + s)[0] == d[0] && (d + s)[1..] == d[1..] + s;
      assert d[0] in d && forall x :: x in d[1..] ==> x in d;
      SplitSkips(d[1..], s, c);
      var r' := Split(d[1..] + s, c);
      assert r'[0] == d[1..] + r[0] && r'[1..] == r[1..];
      assert [d[0]] + (d[1..] + r[0]) == d + r[0];
    }
  }

  /** What a piece between two minus signs adds up to. */
  function PieceSum(piece: string): nat {
    Sum(ParseAll(Split(piece, '+')))
  }

  function RestSum(pieces: seq<string>): nat {
    if pieces == [] then 0 else PieceSum(pieces[0]) + RestSum(pieces[1..])
  }

  lemma SplitLast(d: string, c: char)
    requires c !in d
    ensures Split(d, c) == [d]
  {
    SplitSkips(d, "", c);
    assert d + "" == d;
    assert Split("", c) == [""] && [""][1..] == [];
  }

  lemma ParseOne(d: string, ps: seq<string>)
    ensures Sum(ParseAll([d] + ps)) == Parse(d) + Sum(ParseAll(ps))
  {
    assert ([d] + ps)[0] == d && ([d] + ps)[1..] == ps;
    var ns := ParseAll([d] + ps);
    assert ns == [Parse(d)] + ParseAll(ps);
    assert ns[0] == Parse(d) && ns[1..] == ParseAll(ps);
  }

  lemma PieceOfNumeral(d: string)
    requires IsNumeral(d)
    ensures PieceSum(d) == Parse(d) && '+' !in d && '-' !in d
  {
    assert '+' !in d;
    SplitLast(d, '+');
    ParseOne(d, []);
    assert [d] + [] == [d];
  }

  lemma PieceGrows(d: string, p: string)
    requires IsNumeral(d)
    ensures PieceSum(d + "+" + p) == Parse(d) + PieceSum(p)
  {
    PieceOfNumeral(d);
    SplitAtSign(d, '+', p);
    assert d + "+" + p == d + ("+" + p);
    ParseOne(d, Split(p, '+'));
  }

  /** A separator ends the first part. */
  lemma SplitAtSign(d: string, c: char, rest: string)
    requires c !in d
    ensures Split(d + ([c] + rest), c) == [d] + Split(rest, c)
  {
    var q := [c] + rest;
    assert q[0] == c && q[1..] == rest;
    SplitSkips(d, q, c);
    var ps := Split(rest, c);
    assert Split(q, c) == [""] + ps;
    assert ([""] + ps)[0] == "" && ([""] + ps)[1..] == ps && d + "" == d;
  }

  /** Another character only prolongs the first part. */
  lemma SplitPastSign(d: string, x: char, c: char, rest: string)
    requires c !in d && x != c
    ensures Split(d + ([x] + rest), c) == [d + [x] + Split(rest, c)[0]] + Split(rest, c)[1..]
  {
    var d' := d + [x];
    assert d + ([x] + rest) == d' + rest;
    SplitSkips(d', rest, c);
  }

  /** The first piece between minus signs adds up to the lead, and all pieces together to the sum. */
  lemma {:induction false} PiecesOfText(s: string, ds: seq<string>, signs: seq<bool>)
    requires IsInput(s, ds, signs)
    ensures var ps := Split(s, '-');
            PieceSum(ps[0]) == Lead(ParseAll(ds), signs) && PieceSum(ps[0]) + RestSum(ps[1..]) == Sum(ParseAll(ds))
    decreases |ds|
  {
    hide PieceSum, Split, Parse, IsNumeral;
    var d, ns := ds[0], ParseAll(ds);
    assert IsNumeral(d);
    PieceOfNumeral(d);
    assert ns[0] == Parse(d) && ns[1..] == ParseAll(ds[1..]);
    if signs == [] {
      SplitLast(d, '-');
      assert ds[1..] == [] && [d][1..] == [];
    } else {
      var rest := Text(ds[1..], signs[1..]);
      PiecesOfText(rest, ds[1..], signs[1..]);
      FirstPieces(s, d, signs[0], rest);
    }
  }

  lemma FirstPieces(s: string, d: string, minus: bool, rest: string)
    requires IsNumeral(d) && s == d + (if minus then "-" else "+") + rest
    ensures var ps, qs := Split(s, '-'), Split(rest, '-');
            if minus then PieceSum(ps[0]) == Parse(d) && RestSum(ps[1..]) == PieceSum(qs[0]) + RestSum(qs[1..])
            else PieceSum(ps[0]) == Parse(d) + PieceSum(qs[0]) && RestSum(ps[1..]) == RestSum(qs[1..])
  {
    hide PieceSum, Split, Parse, IsNumeral;
    PieceOfNumeral(d);
    var qs := Split(rest, '-');
    if minus {
      SplitAtSign(d, '-', rest);
      assert s == d + (['-'] + rest);
      assert ([d] + qs)[0] == d && ([d] + qs)[1..] == qs;
    } else {
      SplitPastSign(d, '+', '-', rest);
      assert s == d + (['+'] + rest);
      PieceGrows(d, qs[0]);
      var first := d + "+" + qs[0];
      assert first == d + ['+'] + qs[0];
      assert ([first] + qs[1..])[0] == first && ([first] + qs[1..])[1..] == qs[1..];
    }
  }

  // ----- the program

  /** `sum` of a piece, as the loops compute it. */
  method AddUp(piece: string) returns (result: nat)
    ensures result == PieceSum(piece)
  {
    result := 0;
    if '+' in piece {
      var parts := Split(piece, '+');
      var j := 0;
      while j < |parts|
        invariant j <= |parts| && result + Sum(ParseAll(parts[j..])) == PieceSum(piece)
      {
        assert parts[j..][1..] == parts[j + 1..];
        result := result + Parse(parts[j]);
        j := j + 1;
      }
      assert parts[j..] == [];
    } else {
      SplitLast(piece, '+');
      ParseOne(piece, []);
      assert [piece] + [] == [piece];
      result := result + Parse(piece);
    }
  }

  /** The value printed is that of some full parenthesisation, and none gives less. */
  method LeastValue(input: string, ghost ds: seq<string>, ghost signs: seq<bool>) returns (selected: int)
    requires IsInput(input, ds, signs)
    ensures exists t :: Parenthesises(t, ParseAll(ds), signs) && Eval(t) == selected
    ensures forall t :: Parenthesises(t, ParseAll(ds), signs) ==> Eval(t) >= selected
  {
    var num := Split(input, '-');
    var result := AddUp(num[0]);
    selected := result;
    var i := 1;
    while i < |num|
      invariant 1 <= i <= |num| && selected - RestSum(num[i..]) == PieceSum(num[0]) - RestSum(num[1..])
    {
      assert num[i..][1..] == num[i + 1..];
      result := AddUp(num[i]);
      selected := selected - result;
      i := i + 1;
    }
    assert num[i..] == [];
    PiecesOfText(input, ds, signs);
    ParseLength(ds);
    ghost var best := LeastIsReached(ParseAll(ds), signs);
    forall t | Parenthesises(t, ParseAll(ds), signs) ensures Eval(t) >= selected { NoneGivesLess(t); }
  }

  lemma {:induction false} ParseLength(ds: seq<string>)
    ensures |ParseAll(ds)| == |ds|
  {
    if ds != [] { ParseLength(ds[1..]); }
  }
}
