/** The fixed-window limiter per client, and the Retry-After it prints. */
module RateLimiter {
  import opened Schemas

  datatype Window = Window(count: int, reset: int)

  /** One request of one client under a positive limit. */
  function Hit(w: Option<Window>, limit: int, span: int, now: int): (r: (Window, bool)) {
    if w.None? || now > w.value.reset then (Window(1, now + span), true)
    else (w.value.(count := w.value.count + 1), w.value.count + 1 <= limit)
  }

  class Limiter {
    var hits: map<string, Window>
    const limit: int
    const span: int

    constructor (limit: int, span: int)
      ensures hits == map[] && this.limit == limit && this.span == span
    {
      hits := map[];
      this.limit, this.span := limit, span;
    }

    /** `now` is the reading that decides, `later` the one that measures the wait. */
    method Allow(ip: string, now: int, later: int) returns (ok: bool, retry: int)
      modifies this
      ensures limit <= 0 ==> ok && retry == 0 && hits == old(hits)
      ensures limit > 0 ==>
        && (hits[ip := Window(0, 0)] == old(hits)[ip := Window(0, 0)])
        && ip in hits && (hits[ip], ok) == Hit(if ip in old(hits) then Some(old(hits)[ip]) else None, limit, span, now)
        && retry == if ok then 0 else hits[ip].reset - later
    {
      if limit <= 0 {
        return true, 0;
      }
      if ip !in hits || now > hits[ip].reset {
        hits := hits[ip := Window(1, now + span)];
        return true, 0;
      }
      hits := hits[ip := hits[ip].(count := hits[ip].count + 1)];
      if hits[ip].count > limit {
        return false, hits[ip].reset - later;
      }
      return true, 0;
    }
  }

  // ---------------------------------------------------------------- one client's requests

  /** The client's window after its first `n` requests. */
  function After(ts: seq<int>, n: nat, limit: int, span: int): (w: Option<Window>)
    requires n <= |ts|
    ensures w.Some? <==> n > 0
  {
    if n == 0 then None else Some(Hit(After(ts, n - 1, limit, span), limit, span, ts[n - 1]).0)
  }

  predicate Admitted(ts: seq<int>, k: nat, limit: int, span: int)
    requires k < |ts|
  {
    Hit(After(ts, k, limit, span), limit, span, ts[k]).1
  }

  /** How many of the first `n` requests were admitted at times in [from, to]. */
  function Count(ts: seq<int>, n: nat, from: int, to: int, limit: int, span: int): nat
    requires n <= |ts|
  {
    if n == 0 then 0
    else
      Count(ts, n - 1, from, to, limit, span) +
      if from <= ts[n - 1] <= to && Admitted(ts, n - 1, limit, span) then 1 else 0
  }

  /** The request that opened the window of request `k`: windows open at the first request after the last one closed. */
  function WindowStart(ts: seq<int>, k: nat, span: int): (s: nat)
    requires k < |ts|
    ensures s <= k
  {
    if k == 0 then 0
    else
      var s := WindowStart(ts, k - 1, span);
      if ts[k] > ts[s] + span then k else s
  }

  /** A request is admitted if and only if fewer than `limit` requests of its window came before it, and the window
      ends one span after its first request. */
  lemma {:induction false} AdmittedIff(ts: seq<int>, k: nat, limit: int, span: int)
    requires k < |ts| && limit > 0
    ensures var s := WindowStart(ts, k, span);
      && After(ts, k + 1, limit, span) == Some(Window(k - s + 1, ts[s] + span))
      && (Admitted(ts, k, limit, span) <==> k - s < limit)
  {
    if k > 0 { AdmittedIff(ts, k - 1, limit, span); }
  }

  ghost predicate Monotone(ts: seq<int>) {
    forall i, j :: 0 <= i < j < |ts| ==> ts[i] <= ts[j]
  }

  lemma {:induction false} CountSplit(ts: seq<int>, n: nat, from: int, mid: int, to: int, limit: int, span: int)
    requires n <= |ts| && from <= mid
    ensures Count(ts, n, from, to, limit, span)
         <= Count(ts, n, from, mid - 1, limit, span) + Count(ts, n, mid, to, limit, span)
  {
    if n > 0 { CountSplit(ts, n - 1, from, mid, to, limit, span); }
  }

  lemma {:induction false} CountWider(ts: seq<int>, n: nat, from: int, to: int, from': int, to': int, limit: int, span: int)
    requires n <= |ts| && from' <= from && to <= to'
    ensures Count(ts, n, from, to, limit, span) <= Count(ts, n, from', to', limit, span)
  {
    if n > 0 { CountWider(ts, n - 1, from, to, from', to', limit, span); }
  }

  lemma {:induction false} CountNone(ts: seq<int>, n: nat, from: int, to: int, limit: int, span: int)
    requires n <= |ts| && forall k :: 0 <= k < n ==> !(from <= ts[k] <= to)
    ensures Count(ts, n, from, to, limit, span) == 0
  {
    if n > 0 { CountNone(ts, n - 1, from, to, limit, span); }
  }

  function Min(a: int, b: int): int { if a <= b then a else b }

  /** However late an interval starts from `lo` on, if it ends at `to` it holds at most `cap` admitted requests. */
  ghost predicate AtMost(ts: seq<int>, n: nat, lo: int, to: int, cap: int, limit: int, span: int)
    requires n <= |ts|
  {
    forall from :: lo <= from ==> Count(ts, n, from, to, limit, span) <= cap
  }

  /** What holds after the first `n` requests: `s` is the current window's start. */
  ghost predicate WindowsHold(ts: seq<int>, n: nat, limit: int, span: int)
    requires 0 < n <= |ts|
  {
    var w := After(ts, n, limit, span).value;
    var s, last := w.reset - span, ts[n - 1];
    && s <= last <= w.reset && w.count >= 1
    && Count(ts, n, s, last, limit, span) <= Min(w.count, limit)
    && AtMost(ts, n, s + 1, last, Min(w.count, limit) - 1, limit, span)
    && AtMost(ts, n, s - span, s - 1, limit - 1, limit, span)
  }

  lemma SameEnd(ts: seq<int>, n: nat, from: int, to: int, limit: int, span: int)
    requires 0 < n <= |ts| && Monotone(ts) && to >= ts[n - 1]
    ensures Count(ts, n, from, to, limit, span) == Count(ts, n, from, ts[n - 1], limit, span)
  {
    CountWider(ts, n, from, ts[n - 1], from, to, limit, span);
    CountTail(ts, n, from, to, ts[n - 1], limit, span);
  }

  lemma {:induction false} CountTail(ts: seq<int>, n: nat, from: int, to: int, end: int, limit: int, span: int)
    requires n <= |ts| && forall k :: 0 <= k < n ==> ts[k] <= end
    ensures Count(ts, n, from, to, limit, span) <= Count(ts, n, from, end, limit, span)
  {
    if n > 0 { CountTail(ts, n - 1, from, to, end, limit, span); }
  }

  lemma NewWindow(ts: seq<int>, n: nat, limit: int, span: int)
    requires n < |ts| && Monotone(ts) && limit > 0 && span >= 0
    requires n > 0 ==> WindowsHold(ts, n, limit, span) && ts[n] > After(ts, n, limit, span).value.reset
    ensures WindowsHold(ts, n + 1, limit, span)
  {
    var m, now, before := n + 1, ts[n], ts[n] - 1;
    CountNone(ts, n, now, now, limit, span);
    forall from | now + 1 <= from ensures Count(ts, m, from, now, limit, span) <= 0 {
      CountNone(ts, n, from, now, limit, span);
    }
    forall from | now - span <= from ensures Count(ts, m, from, before, limit, span) <= limit - 1 {
      if n > 0 {
        CountTail(ts, n, from, before, ts[n - 1], limit, span);
      }
    }
  }

  lemma SameWindow(ts: seq<int>, n: nat, limit: int, span: int)
    requires 0 < n < |ts| && Monotone(ts) && limit > 0 && span >= 0
    requires WindowsHold(ts, n, limit, span) && ts[n] <= After(ts, n, limit, span).value.reset
    ensures WindowsHold(ts, n + 1, limit, span)
  {
    var w, m, now := After(ts, n, limit, span).value, n + 1, ts[n];
    var s, before, cap := w.reset - span, w.reset - span - 1, Min(w.count + 1, limit) - 1;
    SameEnd(ts, n, s, now, limit, span);
    forall from | s + 1 <= from ensures Count(ts, m, from, now, limit, span) <= cap {
      SameEnd(ts, n, from, now, limit, span);
    }
    forall from | s - span <= from ensures Count(ts, m, from, before, limit, span) <= limit - 1 {
      assert Count(ts, n, from, before, limit, span) <= limit - 1;
    }
  }

  lemma {:induction false} WindowsAlwaysHold(ts: seq<int>, n: nat, limit: int, span: int)
    requires 0 < n <= |ts| && Monotone(ts) && limit > 0 && span >= 0
    ensures WindowsHold(ts, n, limit, span)
  {
    if n > 1 { WindowsAlwaysHold(ts, n - 1, limit, span); }
    if n == 1 || ts[n - 1] > After(ts, n - 1, limit, span).value.reset {
      NewWindow(ts, n - 1, limit, span);
    } else {
      SameWindow(ts, n - 1, limit, span);
    }
  }

  /** With a clock that never goes backward, any closed interval of one window length admits at most
      2 * limit - 1 requests of a client. */
  lemma {:induction false} BurstBound(ts: seq<int>, n: nat, from: int, limit: int, span: int)
    requires n <= |ts| && Monotone(ts) && limit > 0
    ensures Count(ts, n, from, from + span, limit, span) <= 2 * limit - 1
  {
    if n > 0 {
      var now := ts[n - 1];
      BurstBound(ts, n - 1, from, limit, span);
      if from <= now <= from + span {
        WindowsAlwaysHold(ts, n, limit, span);
        var s := After(ts, n, limit, span).value.reset - span;
        if from > s {
          SameEnd(ts, n, from, from + span, limit, span);
        } else {
          CountSplit(ts, n, from, s, from + span, limit, span);
          SameEnd(ts, n, s, from + span, limit, span);
        }
      }
    }
  }

  /** One request, then limit - 1 at the end of its window, then limit right after it. */
  function WorstCase(limit: nat, span: int): (ts: seq<int>)
    requires limit > 0
    ensures |ts| == 2 * limit
  {
    seq(2 * limit, i => if i == 0 then 0 else if i < limit then span else span + 1)
  }

  lemma {:induction false} WorstCaseAdmits(limit: nat, span: int, n: nat)
    requires limit > 0 && span > 0 && n <= 2 * limit
    ensures var ts := WorstCase(limit, span);
      && (n > 0 ==> After(ts, n, limit, span) == Some(if n <= limit then Window(n, span) else Window(n - limit, 2 * span + 1)))
      && Count(ts, n, span, 2 * span, limit, span) == if n == 0 then 0 else n - 1
  {
    if n > 0 { WorstCaseAdmits(limit, span, n - 1); }
  }

  /** The bound is reached, for every limit and window. */
  lemma BurstBoundIsTight(limit: nat, span: int)
    requires limit > 0 && span > 0
    ensures Monotone(WorstCase(limit, span))
    ensures Count(WorstCase(limit, span), 2 * limit, span, 2 * span, limit, span) == 2 * limit - 1
  {
    WorstCaseAdmits(limit, span, 2 * limit);
  }

  // ---------------------------------------------------------------- Retry-After

  /** Whole seconds of a duration, truncated toward zero. */
  function WholeSeconds(d: int): int {
    if d >= 0 then d / SECOND else -((-d) / SECOND)
  }

  function RetrySeconds(retry: int): int {
    WholeSeconds(retry) + 1
  }

  /** The printed seconds are the wait, rounded up to the next whole second. */
  lemma RetrySecondsMeaning(retry: int)
    requires retry >= 0
    ensures (RetrySeconds(retry) - 1) * SECOND <= retry < RetrySeconds(retry) * SECOND
  {
  }

  /** A refused client that alone waits the printed seconds, counted from the reading that measured the wait, is
      admitted by its next request. */
  lemma RetryAfterSuffices(w: Window, limit: int, span: int, now: int, later: int, next: int)
    requires limit > 0 && now <= later && !Hit(Some(w), limit, span, now).1
    requires next >= later && next >= later + RetrySeconds(Hit(Some(w), limit, span, now).0.reset - later) * SECOND
    ensures Hit(Some(Hit(Some(w), limit, span, now).0), limit, span, next).1
  {
  }

  function Pow10(k: nat): nat { if k == 0 then 1 else 10 * Pow10(k - 1) }

  lemma {:induction false} ParseConcat(a: string, b: string)
    ensures Parse(a + b) == Parse(a) * Pow10(|b|) + Parse(b)
  {
    if b == "" {
      assert a + b == a;
    } else {
      var n := |b| - 1;
      ParseConcat(a, b[..n]);
      assert (a + b)[..|a + b| - 1] == a + b[..n];
      assert Parse(a + b) == 10 * (Parse(a) * Pow10(n) + Parse(b[..n])) + Digit(b[n]);
      assert 10 * (Parse(a) * Pow10(n)) == Parse(a) * Pow10(n + 1);
    }
  }

  predicate Digits(s: string) {
    forall i :: 0 <= i < |s| ==> '0' <= s[i] <= '9'
  }

  /** `text` holds the last digits of `number`, and `n` is the number without them. */
  predicate Written(number: int, n: int, text: string) {
    && n >= 0 && Digits(text) && 0 <= Parse(text) < Pow10(|text|)
    && n * Pow10(|text|) + Parse(text) == number
    && (n == 0 ==> text != "" && text[0] != '0')
  }

  /** The eight-byte buffer: None is the index panic for a number of more than eight digits. */
  method Itoa(number: int) returns (text: Option<string>)
    ensures text.None? <==> number >= 100_000_000
    ensures 0 <= number < 100_000_000 ==> Parse(text.value) == number && 1 <= |text.value| <= 8 && Digits(text.value)
    ensures number > 0 && text.Some? ==> text.value[0] != '0'
    ensures number < 0 ==> text == Some("")
  {
    if number == 0 {
      assert Parse("0") == 10 * Parse("0"[..0]) + 0;
      return Some("0");
    }
    var n, b, i := number, new char[8](_ => '0'), 8;
    while n > 0
      invariant 0 <= i <= 8 && b.Length == 8
      invariant number > 0 ==> Written(number, n, b[i..])
      invariant number < 0 ==> n == number && i == 8
    {
      if i == 0 {
        Overflows(number, n, b[..]);
        return None;
      }
      WriteDigit(number, n, b[i..]);
      ghost var tail := b[i..];
      i := i - 1;
      b[i] := '0' + (n % 10) as char;
      assert b[i..] == [b[i]] + tail;
      n := n / 10;
    }
    if number > 0 { Fits(number, b[i..]); }
    text := Some(b[i..]);
  }

  lemma EightDigits()
    ensures Pow10(8) == 100_000_000
  {
    assert Pow10(1) == 10 && Pow10(2) == 100 && Pow10(3) == 1000 && Pow10(4) == 10_000;
  }

  lemma {:induction false} PowGrows(k: nat)
    requires k <= 8
    ensures Pow10(k) <= Pow10(8)
    decreases 8 - k
  {
    if k < 8 { PowGrows(k + 1); }
  }

  lemma Overflows(number: int, n: int, text: string)
    requires Written(number, n, text) && n > 0 && |text| == 8
    ensures number >= 100_000_000
  {
    EightDigits();
    assert n * Pow10(8) >= Pow10(8);
  }

  lemma Fits(number: int, text: string)
    requires Written(number, 0, text) && |text| <= 8
    ensures number == Parse(text) < 100_000_000
  {
    EightDigits();
    PowGrows(|text|);
  }

  lemma WriteDigit(number: int, n: int, text: string)
    requires Written(number, n, text) && n > 0
    ensures Written(number, n / 10, ['0' + (n % 10) as char] + text)
  {
    var c := '0' + (n % 10) as char;
    ParseConcat([c], text);
    assert Parse([c]) == n % 10 by { assert [c][..0] == ""; }
    Carry(n / 10, n % 10, Pow10(|text|), Parse(text));
  }

  lemma Carry(q: int, r: int, p: int, tail: int)
    requires 0 <= r <= 9 && 0 <= tail < p
    ensures (10 * q + r) * p + tail == q * (10 * p) + (r * p + tail)
    ensures 0 <= r * p + tail < 10 * p
  {
    assert r * p <= 9 * p;
  }

  /** The printed header is the number of seconds, whenever the wait is not negative and the seconds fit eight digits. */
  method RetryAfterHeader(retry: int) returns (header: Option<string>)
    ensures 0 <= retry < 99_999_999 * SECOND ==>
      header.Some? && Parse(header.value) == RetrySeconds(retry) && header.value != ""
  {
    header := Itoa(RetrySeconds(retry));
  }

  // ---------------------------------------------------------------- many clients

  datatype Request = Request(ip: string, at: int)

  function Table(reqs: seq<Request>, limit: int, span: int): (hits: map<string, Window>) {
    if reqs == [] then map[]
    else
      var n := |reqs| - 1;
      var hits, r := Table(reqs[..n], limit, span), reqs[n];
      hits[r.ip := Hit(if r.ip in hits then Some(hits[r.ip]) else None, limit, span, r.at).0]
  }

  function TimesOf(reqs: seq<Request>, ip: string): (ts: seq<int>) {
    if reqs == [] then []
    else
      var n := |reqs| - 1;
      TimesOf(reqs[..n], ip) + if reqs[n].ip == ip then [reqs[n].at] else []
  }

  lemma {:induction false} AfterPrefix(ts: seq<int>, t: int, n: nat, limit: int, span: int)
    requires n <= |ts|
    ensures After(ts + [t], n, limit, span) == After(ts, n, limit, span)
  {
    if n > 0 { AfterPrefix(ts, t, n - 1, limit, span); }
  }

  /** Clients do not share windows: each sees exactly its own requests. */
  lemma {:induction false} ClientsAreApart(reqs: seq<Request>, ip: string, limit: int, span: int)
    ensures var hits, ts := Table(reqs, limit, span), TimesOf(reqs, ip);
      (if ip in hits then Some(hits[ip]) else None) == After(ts, |ts|, limit, span)
  {
    if reqs != [] {
      var n := |reqs| - 1;
      ClientsAreApart(reqs[..n], ip, limit, span);
      var ts := TimesOf(reqs[..n], ip);
      if reqs[n].ip == ip {
        AfterPrefix(ts, reqs[n].at, |ts|, limit, span);
      } else {
        assert TimesOf(reqs, ip) == ts;
      }
    }
  }
}
