/** The buffered reader: whatever pieces the descriptor hands out, the caller sees one stream. */
module BufferedReader {

  type Byte = b: int | 0 <= b < 256

  const RIO_BUFSIZE: nat := 8192
  const NEWLINE: Byte := 10

  // ----- what the descriptor holds

  /** The outcome of a call of `read`.  No bytes at all is the end of the file. */
  datatype Outcome = Data(bytes: seq<Byte>) | Interrupted | Failed

  /** What a reader can notice of it: a byte, an end of file, a failure; not how the bytes were cut into
      pieces, and not the interruptions. */
  datatype Symbol = Plain(byte: Byte) | End | Failure

  function Plains(s: seq<Byte>): seq<Symbol> {
    seq(|s|, i requires 0 <= i < |s| => Plain(s[i]))
  }

  function SymbolsOf(o: Outcome): seq<Symbol> {
    match o
    case Data(bytes) => if bytes == [] then [End] else Plains(bytes)
    case Interrupted => []
    case Failed => [Failure]
  }

  function Symbols(script: seq<Outcome>): seq<Symbol> {
    if script == [] then [] else SymbolsOf(script[0]) + Symbols(script[1..])
  }

  lemma {:induction false} SymbolsOfConcat(a: seq<Outcome>, b: seq<Outcome>)
    ensures Symbols(a + b) == Symbols(a) + Symbols(b)
  {
    if a == [] {
      assert a + b == b;
    } else {
      assert (a + b)[1..] == a[1..] + b;
      SymbolsOfConcat(a[1..], b);
    }
  }

  /** Cutting the bytes of one outcome in two makes no difference to a reader. */
  lemma CutIsInvisible(before: seq<Outcome>, after: seq<Outcome>, bytes: seq<Byte>, n: nat)
    requires 0 < n < |bytes|
    ensures Symbols(before + [Data(bytes)] + after) == Symbols(before + [Data(bytes[..n]), Data(bytes[n..])] + after)
  {
    var one, two := [Data(bytes)], [Data(bytes[..n]), Data(bytes[n..])];
    assert Symbols(one) == Plains(bytes) by { assert one[1..] == []; }
    assert Symbols(two) == Plains(bytes[..n]) + Plains(bytes[n..]) by {
      assert two[1..] == [Data(bytes[n..])] && two[1..][1..] == [];
    }
    assert Plains(bytes) == Plains(bytes[..n]) + Plains(bytes[n..]);
    SymbolsOfConcat(before + one, after);
    SymbolsOfConcat(before, one);
    SymbolsOfConcat(before + two, after);
    SymbolsOfConcat(before, two);
  }

  /** Neither does an interruption. */
  lemma InterruptionIsInvisible(before: seq<Outcome>, after: seq<Outcome>)
    ensures Symbols(before + [Interrupted] + after) == Symbols(before + after)
  {
    hide Symbols;
    SymbolsOfConcat(before + [Interrupted], after);
    SymbolsOfConcat(before, [Interrupted]);
    SymbolsOfConcat(before, after);
    FirstOutcome([Interrupted]);
    assert [Interrupted][1..] == [];
    NoOutcome();
    assert Symbols(before) + [] == Symbols(before);
  }

  lemma NoOutcome()
    ensures Symbols([]) == []
  {
  }

  /** Handing out the first `n` bytes of an outcome. */
  lemma HandOut(bytes: seq<Byte>, after: seq<Outcome>, n: nat)
    requires 0 < n < |bytes|
    ensures Symbols([Data(bytes)] + after) == Plains(bytes[..n]) + Symbols([Data(bytes[n..])] + after)
  {
    hide Plains, Symbols;
    CutIsInvisible([], after, bytes, n);
    assert [] + [Data(bytes)] + after == [Data(bytes)] + after;
    var rest := [Data(bytes[n..])] + after;
    var cut := [Data(bytes[..n])] + rest;
    assert [] + [Data(bytes[..n]), Data(bytes[n..])] + after == cut;
    FirstOutcome(cut);
    assert cut[1..] == rest;
  }

  lemma FirstOutcome(script: seq<Outcome>)
    requires script != []
    ensures Symbols(script) == SymbolsOf(script[0]) + Symbols(script[1..])
  {
  }

  class Descriptor {
    var script: seq<Outcome>

    constructor (script: seq<Outcome>)
      ensures this.script == script
    {
      this.script := script;
    }

    /** At most as many bytes as `buf` has room for; a longer piece is handed out in parts. */
    method Read(buf: array<Byte>) returns (cnt: int, interrupted: bool)
      requires buf.Length > 0
      modifies this, buf
      ensures cnt <= buf.Length && (interrupted ==> cnt < 0)
      ensures interrupted ==> |script| < |old(script)| && Symbols(script) == Symbols(old(script))
      ensures cnt < 0 && !interrupted ==> cnt == -1 && Symbols(old(script)) == [Failure] + Symbols(script)
      ensures cnt == 0 ==> if old(script) == [] then Symbols(old(script)) == Symbols(script) == [] else Symbols(old(script)) == [End] + Symbols(script)
      ensures cnt > 0 ==> Symbols(old(script)) == Plains(buf[..cnt]) + Symbols(script)
    {
      hide Symbols, Plains;
      cnt, interrupted := 0, false;
      if script == [] {
        NoOutcome();
        return;
      }
      FirstOutcome(script);
      match script[0] {
        case Interrupted => cnt, interrupted, script := -1, true, script[1..];
        case Failed => cnt, script := -1, script[1..];
        case Data(bytes) =>
          cnt := if |bytes| <= buf.Length then |bytes| else buf.Length;
          forall i | 0 <= i < cnt { buf[i] := bytes[i]; }
          assert buf[..cnt] == bytes[..cnt];
          if |bytes| <= buf.Length {
            assert bytes[..cnt] == bytes;
            script := script[1..];
          } else {
            HandOut(bytes, script[1..], cnt);
            assert [Data(bytes)] + script[1..] == script;
            script := [Data(bytes[cnt..])] + script[1..];
          }
      }
    }
  }

  // ----- reading from the stream

  /** How many bytes come before the next end or failure. */
  function Lead(s: seq<Symbol>): (n: nat)
    ensures n <= |s| && (forall i :: 0 <= i < n ==> s[i].Plain?) && (n < |s| ==> !s[n].Plain?)
  {
    if s == [] || !s[0].Plain? then 0 else 1 + Lead(s[1..])
  }

  lemma {:induction false} LeadIs(s: seq<Symbol>, n: nat)
    requires n <= |s| && (forall i :: 0 <= i < n ==> s[i].Plain?) && (n < |s| ==> !s[n].Plain?)
    ensures Lead(s) == n
  {
    if n > 0 { LeadIs(s[1..], n - 1); }
  }

  lemma LeadAtLeast(s: seq<Symbol>, k: nat)
    requires k <= |s| && forall i :: 0 <= i < k ==> s[i].Plain?
    ensures k <= Lead(s)
  {
  }

  /** What follows when `n` bytes are wanted: they are taken, or whatever there is up to the next mark, and
      the mark with it. */
  function After(s: seq<Symbol>, n: nat): seq<Symbol> {
    var k := Lead(s);
    if n <= k then s[n..] else if k < |s| then s[k + 1..] else []
  }

  /** The length reported: -1 for a failure. */
  function Result(s: seq<Symbol>, n: nat): int {
    var k := Lead(s);
    if n <= k then n else if k < |s| && s[k] == Failure then -1 else k
  }

  function Least(a: nat, b: nat): nat {
    if a <= b then a else b
  }

  /** Reading `m + n` bytes is reading `m` and then `n`, when all of the first `m` are there. */
  lemma ReadInTwo(s: seq<Symbol>, m: nat, n: nat)
    requires m <= Lead(s)
    ensures Lead(s[m..]) == Lead(s) - m && After(s, m + n) == After(s[m..], n)
    ensures Result(s, m + n) == (if Result(s[m..], n) < 0 then -1 else m + Result(s[m..], n))
  {
    LeadIs(s[m..], Lead(s) - m);
    hide Lead;
    var k := Lead(s);
    assert m + n <= k ==> s[m + n..] == s[m..][n..];
    assert k < |s| ==> s[k + 1..] == s[m..][k - m + 1..];
  }

  /** A mark stops any reader, and goes with the call that it stops; behind everything there is an end. */
  lemma MarkStops(s: seq<Symbol>, rest: seq<Symbol>, state: int)
    requires if state == -1 then s == [Failure] + rest else state == 0 && (s == [] == rest || s == [End] + rest)
    ensures Stopped(s, rest, state)
  {
  }

  ghost predicate Stopped(s: seq<Symbol>, now: seq<Symbol>, state: int) {
    state == Result(s, 1) && Lead(s) == 0 && now == After(s, 1)
  }

  /** The first `k` bytes of `s` have been delivered to `buf`, and `now` is left. */
  ghost predicate Got(s: seq<Symbol>, buf: seq<Byte>, k: nat, now: seq<Symbol>) {
    k <= |buf| && k <= Lead(s) && Plains(buf[..k]) == s[..k] && now == s[k..]
  }

  ghost predicate KeptFrom(buf: seq<Byte>, buf': seq<Byte>, n: nat) {
    |buf'| == |buf| && forall i :: n <= i < |buf| ==> buf'[i] == buf[i]
  }

  /** What a call of `rio_read` does: at least one byte when there is one, never more than `n`. */
  ghost predicate Delivered(s: seq<Symbol>, now: seq<Symbol>, buf: seq<Byte>, buf': seq<Byte>, at: nat, n: nat, cnt: int) {
    && cnt <= n && |buf'| == |buf| && at + n <= |buf| && buf'[..at] == buf[..at] && KeptFrom(buf, buf', at + n)
    && (cnt > 0 ==> cnt <= Lead(s) && Plains(buf'[at..at + cnt]) == s[..cnt] && now == s[cnt..])
    && (cnt <= 0 ==> Stopped(s, now, cnt) && buf' == buf)
  }

  /** `buf` starts with the first `k` bytes of `s`. */
  ghost predicate Holds(s: seq<Symbol>, buf: seq<Byte>, k: nat) {
    k <= |buf| && k <= |s| && Plains(buf[..k]) == s[..k]
  }

  lemma GotNothing(s: seq<Symbol>, buf: seq<Byte>)
    ensures Got(s, buf, 0, s)
  {
  }

  lemma GotAll(s: seq<Symbol>, buf: seq<Byte>, n: nat, now: seq<Symbol>)
    requires Got(s, buf, n, now)
    ensures Holds(s, buf, Least(n, Lead(s))) && now == After(s, n) && Result(s, n) == n
  {
    hide Lead, Plains;
  }

  lemma AtMost(s: seq<Symbol>, now: seq<Symbol>, buf: seq<Byte>, buf': seq<Byte>, at: nat, n: nat, cnt: int)
    requires Delivered(s, now, buf, buf', at, n, cnt)
    ensures cnt <= n && KeptFrom(buf, buf', at + n)
  {
  }

  lemma GotBytes(s: seq<Symbol>, buf: seq<Byte>, k: nat, now: seq<Symbol>, now': seq<Symbol>, buf': seq<Byte>, n: nat, cnt: int)
    requires Got(s, buf, k, now) && Delivered(now, now', buf, buf', k, n, cnt) && cnt > 0
    ensures Got(s, buf', k + cnt, now')
  {
    hide Lead, Stopped, Plains;
    LeadIs(now, Lead(s) - k);
    SliceInTwo(s, k, cnt);
    SliceInTwo(buf', k, cnt);
    assert buf'[k..][..cnt] == buf'[k..k + cnt];
    PlainsOfConcat(buf'[..k], buf'[k..k + cnt]);
  }

  lemma SliceInTwo<T>(s: seq<T>, k: nat, m: nat)
    requires k + m <= |s|
    ensures s[..k + m] == s[..k] + s[k..][..m] && s[k + m..] == s[k..][m..]
  {
  }

  lemma PlainsOfConcat(a: seq<Byte>, b: seq<Byte>)
    ensures Plains(a + b) == Plains(a) + Plains(b)
  {
  }

  lemma GotMark(s: seq<Symbol>, buf: seq<Byte>, k: nat, now: seq<Symbol>, now': seq<Symbol>, buf': seq<Byte>, n: nat, cnt: int)
    requires Got(s, buf, k, now) && Delivered(now, now', buf, buf', k, n, cnt) && cnt <= 0 && n > 0
    ensures cnt == 0 || cnt == -1
    ensures Holds(s, buf', Least(k + n, Lead(s))) && now' == After(s, k + n) && Result(s, k + n) == if cnt < 0 then -1 else k
  {
    ReadInTwo(s, k, n);
    hide Lead, Plains;
  }

  /** A buffer that holds `cnt` bytes from `ptr` on, and what the descriptor has after them. */
  ghost function Buffered(buf: seq<Byte>, ptr: nat, cnt: int, tail: seq<Symbol>): seq<Symbol>
    requires cnt > 0 ==> ptr + cnt <= |buf|
  {
    (if cnt > 0 then Plains(buf[ptr..ptr + cnt]) else []) + tail
  }

  lemma PlainsFirst(x: seq<Byte>, tail: seq<Symbol>, k: nat)
    requires k <= |x|
    ensures var s := Plains(x) + tail; k <= Lead(s) && s[..k] == Plains(x[..k]) && s[k..] == Plains(x[k..]) + tail
  {
    LeadAtLeast(Plains(x) + tail, k);
    hide Lead;
  }

  /** Taking `k` bytes out of the buffer. */
  lemma Taken(buf: seq<Byte>, ptr: nat, cnt: nat, tail: seq<Symbol>, k: nat)
    requires 0 < k <= cnt && ptr + cnt <= |buf|
    ensures var s := Buffered(buf, ptr, cnt, tail);
      && k <= Lead(s) && s[..k] == Plains(buf[ptr..ptr + k]) && s[k..] == Buffered(buf, ptr + k, cnt - k, tail)
  {
    hide Plains, Lead;
    var x := buf[ptr..ptr + cnt];
    PlainsFirst(x, tail, k);
    PlainsNone();
    assert x[..k] == buf[ptr..ptr + k];
    assert x[k..] == buf[ptr + k..ptr + cnt];
    assert k == cnt ==> x[k..] == [];
  }

  lemma PlainsNone()
    ensures Plains([]) == []
  {
  }

  /** `s` with `t` written over it from position `at`. */
  function Overwritten(s: seq<Byte>, at: nat, t: seq<Byte>): seq<Byte>
    requires at + |t| <= |s|
  {
    s[..at] + t + s[at + |t|..]
  }

  lemma OverwrittenParts(s: seq<Byte>, at: nat, t: seq<Byte>)
    requires at + |t| <= |s|
    ensures var r := Overwritten(s, at, t); |r| == |s| && r[..at] == s[..at] && r[at..at + |t|] == t && KeptFrom(s, r, at + |t|)
  {
  }

  /** `memcpy` between two buffers. */
  method CopyBytes(dst: array<Byte>, at: nat, src: array<Byte>, from: nat, n: nat)
    requires dst != src && at + n <= dst.Length && from + n <= src.Length
    modifies dst
    ensures dst[..] == Overwritten(old(dst[..]), at, src[..][from..from + n])
  {
    forall i | 0 <= i < n { dst[at + i] := src[from + i]; }
    assert forall i :: 0 <= i < dst.Length ==> dst[..][i] == Overwritten(old(dst[..]), at, src[..][from..from + n])[i];
  }

  // ----- the line reader

  /** How many bytes a line read takes when `limit` are allowed: up to and including the first newline. */
  function LineLength(s: seq<Symbol>, limit: nat): (n: nat)
    ensures n <= limit && n <= Lead(s)
    ensures forall i :: 0 <= i < n - 1 ==> s[i] != Plain(NEWLINE)
    ensures n < limit && n < Lead(s) ==> n > 0 && s[n - 1] == Plain(NEWLINE)
  {
    if limit == 0 || s == [] || !s[0].Plain? then 0
    else if s[0] == Plain(NEWLINE) then 1
    else 1 + LineLength(s[1..], limit - 1)
  }

  /** The bytes run out before the line is complete and before the limit. */
  predicate CutShort(s: seq<Symbol>, limit: nat) {
    var n := LineLength(s, limit);
    n == Lead(s) && n < limit && (n == 0 || s[n - 1] != Plain(NEWLINE))
  }

  lemma {:induction false} LineStep(s: seq<Symbol>, limit: nat, n: nat)
    requires n < limit && n < Lead(s) && forall i :: 0 <= i < n ==> s[i] != Plain(NEWLINE)
    ensures s[n] == Plain(NEWLINE) || n + 1 == limit ==> LineLength(s, limit) == n + 1 && !CutShort(s, limit)
  {
    if n > 0 {
      LineStep(s[1..], limit - 1, n - 1);
    }
  }

  lemma {:induction false} LineEnds(s: seq<Symbol>, limit: nat, n: nat)
    requires n < limit && n == Lead(s) && forall i :: 0 <= i < n ==> s[i] != Plain(NEWLINE)
    ensures LineLength(s, limit) == n && CutShort(s, limit)
  {
    if n > 0 {
      LineEnds(s[1..], limit - 1, n - 1);
    }
  }

  ghost predicate NoNewline(s: seq<Symbol>, k: nat) {
    k <= |s| && forall i :: 0 <= i < k ==> s[i] != Plain(NEWLINE)
  }

  /** A line read that takes `k` bytes reports `count` and leaves `now`. */
  ghost predicate LineEnd(s: seq<Symbol>, now: seq<Symbol>, limit: nat, k: nat, count: int) {
    && k == LineLength(s, limit)
    && if CutShort(s, limit) then now == After(s, k + 1) && count == Result(s, k + 1) else now == s[k..] && count == k
  }

  /** All that a line read does: the bytes of the line, a zero after them unless nothing at all was read, what
      it reports and what it leaves. */
  ghost predicate LineRead(s: seq<Symbol>, now: seq<Symbol>, limit: nat, buf: seq<Byte>, count: int) {
    var k := LineLength(s, limit);
    && LineEnd(s, now, limit, k, count) && Holds(s, buf, k)
    && (count > 0 || (count == 0 && !CutShort(s, limit)) ==> k < |buf| && buf[k] == 0)
  }

  lemma NoneYet(s: seq<Symbol>)
    ensures NoNewline(s, 0)
  {
  }

  lemma LineByte(s: seq<Symbol>, buf: seq<Byte>, k: nat, now: seq<Symbol>, now': seq<Symbol>, was: seq<Byte>, c: seq<Byte>, buf': seq<Byte>, limit: nat)
    requires Got(s, buf, k, now) && NoNewline(s, k) && Delivered(now, now', was, c, 0, 1, 1)
    requires k < |buf| && k < limit && |c| == 1 && buf' == buf[k := c[0]]
    ensures Got(s, buf', k + 1, now')
    ensures if c[0] == NEWLINE then Whole(s, buf', k + 1, now', limit) else NoNewline(s, k + 1)
  {
    LeadIs(now, Lead(s) - k);
    hide Lead, LineLength, CutShort;
    assert c[0..1] == c && Plains(c)[0] == Plain(c[0]);
    assert buf'[..k + 1] == buf[..k] + c;
    assert s[..k + 1] == s[..k] + now[..1];
    assert s[k] == now[0] == now[..1][0];
    LineStep(s, limit, k);
  }

  lemma LineMark(s: seq<Symbol>, buf: seq<Byte>, k: nat, now: seq<Symbol>, now': seq<Symbol>, was: seq<Byte>, c: seq<Byte>, rc: int, limit: nat)
    requires Got(s, buf, k, now) && NoNewline(s, k) && Delivered(now, now', was, c, 0, 1, rc) && rc != 1 && k < limit
    ensures rc == 0 || rc == -1
    ensures if rc == 0 && k > 0 then Whole(s, buf, k, now', limit) else LineRead(s, now', limit, buf, rc)
  {
    ReadInTwo(s, k, 1);
    hide Lead, LineLength, CutShort, Plains;
    LineEnds(s, limit, k);
  }

  /** The limit is reached. */
  lemma LineFull(s: seq<Symbol>, buf: seq<Byte>, k: nat, now: seq<Symbol>)
    requires Got(s, buf, k, now) && NoNewline(s, k)
    ensures Whole(s, buf, k, now, k)
  {
    if k > 0 { LineStep(s, k, k - 1); }
  }

  /** The line read is over after `k` bytes without a failure, and `buf` holds them. */
  ghost predicate Whole(s: seq<Symbol>, buf: seq<Byte>, k: nat, now: seq<Symbol>, limit: nat) {
    LineEnd(s, now, limit, k, k) && Holds(s, buf, k) && (CutShort(s, limit) ==> k > 0)
  }

  lemma Terminated(s: seq<Symbol>, buf: seq<Byte>, k: nat, now: seq<Symbol>, limit: nat, buf': seq<Byte>)
    requires Whole(s, buf, k, now, limit) && k < |buf| && buf' == buf[k := 0]
    ensures LineRead(s, now, limit, buf', k)
  {
    hide CutShort, LineLength, After, Result, Plains;
    assert buf'[..k] == buf[..k];
  }

  class Rio {
    const rio_fd: Descriptor
    const rio_buf: array<Byte>
    var rio_cnt: int
    var rio_bufptr: nat

    ghost predicate Valid()
      reads this
    {
      rio_buf.Length == RIO_BUFSIZE && (rio_cnt > 0 ==> rio_bufptr + rio_cnt <= RIO_BUFSIZE)
    }

    /** The stream as the caller will see it. */
    ghost function Stream(): seq<Symbol>
      requires Valid()
      reads this, rio_buf, rio_fd
    {
      Buffered(rio_buf[..], rio_bufptr, rio_cnt, Symbols(rio_fd.script))
    }

    /** `rio_readinitb`. */
    constructor (fd: Descriptor)
      ensures Valid() && rio_fd == fd && fresh(rio_buf) && Stream() == Symbols(fd.script)
    {
      rio_fd := fd;
      rio_buf := new Byte[RIO_BUFSIZE];
      rio_cnt, rio_bufptr := 0, 0;
    }

    /** The loop of `rio_read`: 1 when the buffer holds something, 0 at an end, -1 on failure. */
    method Refill() returns (state: int)
      requires Valid()
      modifies this, rio_buf, rio_fd
      ensures state == 1 || state == 0 || state == -1
      ensures Valid() && if state == 1 then rio_cnt > 0 && Stream() == old(Stream()) else Stopped(old(Stream()), Stream(), state)
    {
      hide Symbols, Plains, Lead, After, Result, Stopped;
      while rio_cnt <= 0
        invariant Valid() && Stream() == old(Stream())
        decreases rio_cnt <= 0, |rio_fd.script|
      {
        ghost var s := Symbols(rio_fd.script);
        assert Stream() == s;
        var cnt, interrupted := rio_fd.Read(rio_buf);
        if !interrupted && cnt <= 0 { MarkStops(s, Symbols(rio_fd.script), cnt); }
        rio_cnt := cnt;
        assert cnt <= 0 ==> Stream() == Symbols(rio_fd.script);
        if cnt < 0 {
          if !interrupted { return -1; }
        } else if cnt == 0 {
          return 0;
        } else {
          rio_bufptr := 0;
          assert rio_buf[..][0..cnt] == rio_buf[..cnt];
        }
      }
      state := 1;
    }

    /** Bytes of the stream go to `usrbuf` from position `at`: at least one when there is one, never more
        than `n`. */
    method RioRead(usrbuf: array<Byte>, at: nat, n: nat) returns (cnt: int)
      requires Valid() && usrbuf != rio_buf && at + n <= usrbuf.Length && n > 0
      modifies this, rio_buf, rio_fd, usrbuf
      ensures Valid() && Delivered(old(Stream()), Stream(), old(usrbuf[..]), usrbuf[..], at, n, cnt)
    {
      hide Symbols, Plains, Lead, After, Result, Buffered, Stopped;
      cnt := Refill();
      if cnt <= 0 { return; }
      cnt := n;
      if rio_cnt < n { cnt := rio_cnt; }
      Taken(rio_buf[..], rio_bufptr, rio_cnt, Symbols(rio_fd.script), cnt);
      ghost var held := rio_buf[..];
      ghost var from := held[rio_bufptr..rio_bufptr + cnt];
      ghost var before := usrbuf[..];
      CopyBytes(usrbuf, at, rio_buf, rio_bufptr, cnt);
      OverwrittenParts(before, at, from);
      assert rio_buf[..] == held;
      rio_bufptr := rio_bufptr + cnt;
      rio_cnt := rio_cnt - cnt;
    }

    /** The first bytes of the stream, `n` unless it ends before; the outcome does not depend on the pieces
        in which they arrive. */
    method RioReadnb(usrbuf: array<Byte>, n: nat) returns (nread: int)
      requires Valid() && usrbuf != rio_buf && n <= usrbuf.Length
      modifies this, rio_buf, rio_fd, usrbuf
      ensures Valid() && nread == Result(old(Stream()), n) && Stream() == After(old(Stream()), n)
      ensures Holds(old(Stream()), usrbuf[..], Least(n, Lead(old(Stream())))) && KeptFrom(old(usrbuf[..]), usrbuf[..], n)
    {
      hide Symbols, Plains, Lead, After, Result, Buffered, Got, Delivered, Holds;
      ghost var s := Stream();
      var nleft := n;
      GotNothing(s, usrbuf[..]);
      while nleft > 0
        invariant 0 <= nleft <= n && Valid() && Got(s, usrbuf[..], n - nleft, Stream())
        invariant KeptFrom(old(usrbuf[..]), usrbuf[..], n)
      {
        ghost var now, buf := Stream(), usrbuf[..];
        var r := RioRead(usrbuf, n - nleft, nleft);
        AtMost(now, Stream(), buf, usrbuf[..], n - nleft, nleft, r);
        if r <= 0 { GotMark(s, buf, n - nleft, now, Stream(), usrbuf[..], nleft, r); }
        if r < 0 {
          return -1;
        } else if r == 0 {
          return n - nleft;
        }
        GotBytes(s, buf, n - nleft, now, Stream(), usrbuf[..], nleft, r);
        nleft := nleft - r;
      }
      GotAll(s, usrbuf[..], n, Stream());
      nread := n;
    }

    /** A line of the stream, cut at `maxlen - 1` bytes, and a zero after it. */
    method RioReadlineb(usrbuf: array<Byte>, maxlen: nat) returns (count: int)
      requires Valid() && usrbuf != rio_buf && 1 <= usrbuf.Length && maxlen <= usrbuf.Length
      modifies this, rio_buf, rio_fd, usrbuf
      ensures Valid()
      ensures LineRead(old(Stream()), Stream(), LineLimit(maxlen), usrbuf[..], count)
    {
      hide Symbols, Plains, Lead, After, Result, Buffered, Got, Delivered, LineLength, LineEnd, LineRead, NoNewline, CutShort, Holds, Whole;
      ghost var s, limit := Stream(), LineLimit(maxlen);
      var c := new Byte[1];
      var n := 1;
      GotNothing(s, usrbuf[..]);
      NoneYet(s);
      ghost var done := false;
      while n < maxlen
        invariant 1 <= n <= usrbuf.Length && n - 1 <= limit
        invariant Valid() && Got(s, usrbuf[..], n - 1, Stream()) && NoNewline(s, n - 1) && !done
      {
        ghost var now, buf, was := Stream(), usrbuf[..], c[..];
        var rc := RioRead(c, 0, 1);
        if rc == 1 {
          usrbuf[n - 1] := c[0];
          LineByte(s, buf, n - 1, now, Stream(), was, c[..], usrbuf[..], limit);
          n := n + 1;
          done := c[0] == NEWLINE;
          if c[0] == NEWLINE { break; }
        } else {
          LineMark(s, buf, n - 1, now, Stream(), was, c[..], rc, limit);
          if rc == 0 {
            if n == 1 { return 0; }
            done := true;
            break;
          } else {
            return -1;
          }
        }
      }
      if !done { LineFull(s, usrbuf[..], n - 1, Stream()); }
      ghost var line := usrbuf[..];
      usrbuf[n - 1] := 0;
      Terminated(s, line, n - 1, Stream(), limit, usrbuf[..]);
      count := n - 1;
    }
  }

  /** One byte is kept for the zero. */
  function LineLimit(maxlen: nat): nat {
    if maxlen == 0 then 0 else maxlen - 1
  }
}
