/** steampak/webapi/utils.py: `$name` template filling (`str_sub`, which is
    `string.Template.safe_substitute`) and the per-limits request counter
    that `DataFetcher.fetch_data` keeps in the module-level `_FETCHER_LIMITS`
    table. The HTTP request itself is recorded, not performed; its parsed
    response is what the resource modules take as input. */
module WebApiUtils {
  import opened Wrappers

  // ---------------------------------------------------------------------
  // Template substitution

  /** First character of a placeholder name: `[_a-z]`, case-insensitively, ASCII only. */
  predicate IsIdStart(c: char) { c == '_' || 'a' <= c <= 'z' || 'A' <= c <= 'Z' }

  predicate IsIdChar(c: char) { IsIdStart(c) || '0' <= c <= '9' }

  /** Length of the longest run of identifier characters at the start of `s`. */
  function IdRun(s: string): (n: nat)
    ensures n <= |s|
    ensures forall i :: 0 <= i < n ==> IsIdChar(s[i])
    ensures n < |s| ==> !IsIdChar(s[n])
  {
    if s == [] || !IsIdChar(s[0]) then 0 else 1 + IdRun(s[1..])
  }

  /** Length of the placeholder name at the start of `s`, 0 when there is none. */
  function IdLength(s: string): (n: nat)
    ensures n <= |s|
  {
    if s != [] && IsIdStart(s[0]) then IdRun(s) else 0
  }

  predicate IsIdentifier(name: string) {
    name != [] && IsIdStart(name[0]) && forall i :: 0 <= i < |name| ==> IsIdChar(name[i])
  }

  predicate NoDollar(s: string) { forall i :: 0 <= i < |s| ==> s[i] != '$' }

  /** One step of `Template(t).safe_substitute(**m)` at the start of a
      non-empty `t`: what the leading token becomes and how long it is.
      `$$` is a literal `$`; `$name` and `${name}` are replaced by `m[name]`
      when `name` is supplied and kept as written otherwise; a `$` that
      starts neither is kept. */
  function Step(t: string, m: map<string, string>): (r: (string, nat))
    requires t != []
    ensures 1 <= r.1 <= |t|
  {
    if t[0] != '$' then ([t[0]], 1)
    else if |t| >= 2 && t[1] == '$' then ("$", 2)
    else
      var k := IdLength(t[1..]);
      if k > 0 then
        var name := t[1..1 + k];
        (if name in m then m[name] else "$" + name, 1 + k)
      else
        var j := if |t| >= 2 then IdLength(t[2..]) else 0;
        if |t| >= 2 && t[1] == '{' && j > 0 && 2 + j < |t| && t[2 + j] == '}' then
          var name := t[2..2 + j];
          (if name in m then m[name] else t[..3 + j], 3 + j)
        else
          ("$", 1)
  }

  /** `Template(t).safe_substitute(**m)`: the tokens are filled one after
      the other; the replacement text is never rescanned. */
  function Substitute(t: string, m: map<string, string>): string
    decreases |t|
  {
    if t == [] then []
    else
      var s := Step(t, m);
      s.0 + Substitute(t[s.1..], m)
  }

  /** `str_sub(string, **kwargs)`. */
  function StrSub(t: string, kwargs: map<string, string>): string
  {
    Substitute(t, kwargs)
  }

  /** Text without `$` passes through unchanged, whatever follows it. */
  lemma {:induction false} SubstituteLiteral(v: string, rest: string, m: map<string, string>)
    requires NoDollar(v)
    ensures Substitute(v + rest, m) == v + Substitute(rest, m)
    decreases |v|
  {
    if v != [] {
      var t := v + rest;
      assert t[0] == v[0] && t[0] != '$';
      assert t[1..] == v[1..] + rest;
      assert Step(t, m) == ([v[0]], 1);
      SubstituteLiteral(v[1..], rest, m);
      var x := Substitute(rest, m);
      assert Substitute(t, m) == [v[0]] + (v[1..] + x);
      assert [v[0]] + (v[1..] + x) == ([v[0]] + v[1..]) + x;
      assert [v[0]] + v[1..] == v;
    } else {
      assert v + rest == rest;
      assert v + Substitute(rest, m) == Substitute(rest, m);
    }
  }

  lemma {:induction false} IdRunPrefix(name: string, rest: string)
    requires forall i :: 0 <= i < |name| ==> IsIdChar(name[i])
    requires rest == [] || !IsIdChar(rest[0])
    ensures IdRun(name + rest) == |name|
    decreases |name|
  {
    if name != [] {
      assert (name + rest)[1..] == name[1..] + rest;
      IdRunPrefix(name[1..], rest);
    }
  }

  /** A `$name` placeholder that is not followed by an identifier character
      is replaced by its value when `name` is supplied and kept otherwise. */
  lemma SubstitutePlaceholder(name: string, rest: string, m: map<string, string>)
    requires IsIdentifier(name)
    requires rest == [] || !IsIdChar(rest[0])
    ensures Substitute("$" + name + rest, m)
         == (if name in m then m[name] else "$" + name) + Substitute(rest, m)
  {
    var t := "$" + name + rest;
    assert t[1..] == name + rest;
    IdRunPrefix(name, rest);
    assert t[1..1 + |name|] == name;
    assert t[1 + |name|..] == rest;
    assert Step(t, m) == (Filled(name, m), 1 + |name|);
  }

  /** What a placeholder becomes: the supplied value, or itself when none is supplied. */
  function Filled(name: string, m: map<string, string>): string {
    if name in m then m[name] else "$" + name
  }

  /** Text without `$` is its own substitution. */
  lemma SubstituteFree(v: string, m: map<string, string>)
    requires NoDollar(v)
    ensures Substitute(v, m) == v
  {
    SubstituteLiteral(v, [], m);
    assert v + [] == v;
  }

  /** A template `pre $name post` without other placeholders: the literal
      parts are copied and the placeholder filled. */
  lemma SubstituteOne(pre: string, name: string, post: string, m: map<string, string>)
    requires NoDollar(pre) && NoDollar(post) && IsIdentifier(name)
    requires post == [] || !IsIdChar(post[0])
    ensures Substitute(pre + "$" + name + post, m) == pre + Filled(name, m) + post
  {
    SubstitutePrefix(pre, name, post, m);
    SubstituteFree(post, m);
  }

  /** A leading `pre $name` is copied and filled; the rest is filled on its own. */
  lemma SubstitutePrefix(pre: string, name: string, post: string, m: map<string, string>)
    requires NoDollar(pre) && IsIdentifier(name)
    requires post == [] || !IsIdChar(post[0])
    ensures Substitute(pre + "$" + name + post, m) == pre + Filled(name, m) + Substitute(post, m)
  {
    var r := "$" + name + post;
    assert pre + "$" + name + post == pre + r;
    SubstituteLiteral(pre, r, m);
    SubstitutePlaceholder(name, post, m);
  }

  /** Every `$` starts a `$name` placeholder that is not directly followed by
      another `$`: the shape of every URL template in the web client. */
  predicate PlainTemplate(t: string) {
    forall i :: 0 <= i < |t| && t[i] == '$' ==>
      IdLength(t[i + 1..]) > 0 &&
      (i + 1 + IdLength(t[i + 1..]) == |t| || t[i + 1 + IdLength(t[i + 1..])] != '$')
  }

  lemma PlainTemplateSuffix(t: string, k: nat)
    requires PlainTemplate(t) && k <= |t|
    ensures PlainTemplate(t[k..])
  {
    var u := t[k..];
    forall i | 0 <= i < |u| && u[i] == '$'
      ensures IdLength(u[i + 1..]) > 0 &&
              (i + 1 + IdLength(u[i + 1..]) == |u| || u[i + 1 + IdLength(u[i + 1..])] != '$')
    {
      assert u[i] == t[k + i];
      assert u[i + 1..] == t[k + i + 1..];
    }
  }

  /** Filling a plain template in two stages, as the web client fills the
      inventory URL (appid at import time, username per call), gives what
      filling it once with both maps gives, provided the first stage's values
      hold no `$`. Values of the first stage win over the second's. */
  lemma {:induction false} TwoStageSubstitution(t: string, m1: map<string, string>, m2: map<string, string>)
    requires PlainTemplate(t)
    requires forall k :: k in m1 ==> NoDollar(m1[k])
    ensures Substitute(Substitute(t, m1), m2) == Substitute(t, m2 + m1)
    decreases |t|
  {
    if t == [] {
    } else if t[0] != '$' {
      PlainTemplateSuffix(t, 1);
      TwoStageSubstitution(t[1..], m1, m2);
      TwoStageLiteral(t, m1, m2);
    } else {
      var name, rest := PlainTemplateHead(t);
      TwoStageSubstitution(rest, m1, m2);
      TwoStagePlaceholder(name, rest, m1, m2);
    }
  }

  /** The literal step of the two-stage substitution. */
  lemma TwoStageLiteral(t: string, m1: map<string, string>, m2: map<string, string>)
    requires t != [] && t[0] != '$'
    requires Substitute(Substitute(t[1..], m1), m2) == Substitute(t[1..], m2 + m1)
    ensures Substitute(Substitute(t, m1), m2) == Substitute(t, m2 + m1)
  {
    assert Step(t, m1) == ([t[0]], 1);
    assert Step(t, m2 + m1) == ([t[0]], 1);
    SubstituteLiteral([t[0]], Substitute(t[1..], m1), m2);
  }

  /** A plain template starting with `$` is a placeholder followed by a plain
      template that starts with neither an identifier character nor `$`. */
  lemma PlainTemplateHead(t: string) returns (name: string, rest: string)
    requires PlainTemplate(t) && t != [] && t[0] == '$'
    ensures t == "$" + name + rest && IsIdentifier(name) && |rest| < |t|
    ensures rest == [] || (!IsIdChar(rest[0]) && rest[0] != '$')
    ensures PlainTemplate(rest)
  {
    var k := IdLength(t[1..]);
    name := t[1..1 + k];
    rest := t[1 + k..];
    assert k > 0;
    assert IsIdentifier(name);
    assert t == "$" + name + rest;
    if rest != [] { assert rest[0] == t[1 + k]; }
    PlainTemplateSuffix(t, 1 + k);
  }

  /** The placeholder step of the two-stage substitution. */
  lemma TwoStagePlaceholder(name: string, rest: string, m1: map<string, string>, m2: map<string, string>)
    requires IsIdentifier(name) && (rest == [] || (!IsIdChar(rest[0]) && rest[0] != '$'))
    requires forall k :: k in m1 ==> NoDollar(m1[k])
    requires Substitute(Substitute(rest, m1), m2) == Substitute(rest, m2 + m1)
    ensures Substitute(Substitute("$" + name + rest, m1), m2) == Substitute("$" + name + rest, m2 + m1)
  {
    SubstitutePlaceholder(name, rest, m1);
    SubstitutePlaceholder(name, rest, m2 + m1);
    var x := Substitute(rest, m1);
    if name in m1 {
      SubstituteLiteral(m1[name], x, m2);
    } else {
      if rest != [] {
        assert Step(rest, m1) == ([rest[0]], 1);
        assert x == [rest[0]] + Substitute(rest[1..], m1);
      }
      SubstitutePlaceholder(name, x, m2);
      assert "$" + name + x == ("$" + name) + x;
    }
  }

  /** No `$$` escape anywhere in `t`. */
  predicate NoEscape(t: string) {
    forall i :: 0 <= i < |t| - 1 ==> !(t[i] == '$' && t[i + 1] == '$')
  }

  lemma NoEscapeSuffix(t: string, k: nat)
    requires NoEscape(t) && k <= |t|
    ensures NoEscape(t[k..])
  {
    var u := t[k..];
    forall i | 0 <= i < |u| - 1 ensures !(u[i] == '$' && u[i + 1] == '$') {
      assert u[i] == t[k + i] && u[i + 1] == t[k + i + 1];
    }
  }

  /** A `${name}` placeholder: the braced case of `Substitute`. */
  predicate BracedAt(t: string) {
    |t| >= 2 && t[0] == '$' && t[1] == '{' && IdLength(t[1..]) == 0 &&
    IdLength(t[2..]) > 0 && 2 + IdLength(t[2..]) < |t| && t[2 + IdLength(t[2..])] == '}'
  }

  /** A `${name}` placeholder is replaced by its value when `name` is
      supplied and kept whole, braces included, otherwise; whatever follows
      the closing brace is filled on its own. */
  lemma SubstituteBraced(name: string, rest: string, m: map<string, string>)
    requires IsIdentifier(name)
    ensures Substitute("${" + name + "}" + rest, m)
         == (if name in m then m[name] else "${" + name + "}") + Substitute(rest, m)
  {
    var t := "${" + name + "}" + rest;
    var j := |name|;
    assert t[1..][0] == '{';
    assert t[2..] == name + ("}" + rest);
    IdRunPrefix(name, "}" + rest);
    assert IdLength(t[2..]) == j;
    assert t[2 + j] == '}';
    assert t[2..2 + j] == name;
    assert t[..3 + j] == "${" + name + "}";
    assert t[3 + j..] == rest;
    assert Step(t, m) == (if name in m then m[name] else "${" + name + "}", 3 + j);
  }

  /** For a supplied name, `${name}` and `$name` give the same text. */
  lemma BracedLikeNamed(name: string, rest: string, m: map<string, string>)
    requires IsIdentifier(name) && name in m
    requires rest == [] || !IsIdChar(rest[0])
    ensures Substitute("${" + name + "}" + rest, m) == Substitute("$" + name + rest, m)
  {
    SubstituteBraced(name, rest, m);
    SubstitutePlaceholder(name, rest, m);
  }

  lemma SubstituteInvalid(t: string, m: map<string, string>)
    requires t != [] && t[0] == '$' && !(|t| >= 2 && t[1] == '$') && IdLength(t[1..]) == 0 && !BracedAt(t)
    ensures Substitute(t, m) == "$" + Substitute(t[1..], m)
  {
    assert Step(t, m) == ("$", 1);
  }

  lemma SubstituteNamed(t: string, m: map<string, string>)
    requires t != [] && t[0] == '$' && IdLength(t[1..]) > 0
    ensures var k := IdLength(t[1..]);
      Substitute(t, m) == (if t[1..1 + k] in m then m[t[1..1 + k]] else "$" + t[1..1 + k]) + Substitute(t[1 + k..], m)
  {
    var k := IdLength(t[1..]);
    assert Step(t, m) == (if t[1..1 + k] in m then m[t[1..1 + k]] else "$" + t[1..1 + k], 1 + k);
  }

  /** With nothing supplied, a token other than `$$` stays as written. */
  lemma StepNothing(t: string)
    requires t != [] && NoEscape(t)
    ensures Step(t, map[]).0 == t[..Step(t, map[]).1]
  {
    if t[0] == '$' && IdLength(t[1..]) > 0 {
      var k := IdLength(t[1..]);
      assert t[..1 + k] == "$" + t[1..1 + k];
    }
  }

  /** With nothing supplied, a template without `$$` comes back unchanged:
      every placeholder survives as written. */
  lemma {:induction false} SubstituteNothing(t: string)
    requires NoEscape(t)
    ensures Substitute(t, map[]) == t
    decreases |t|
  {
    if t != [] {
      var n := Step(t, map[]).1;
      StepNothing(t);
      NoEscapeSuffix(t, n);
      SubstituteNothing(t[n..]);
      assert t[..n] + t[n..] == t;
    }
  }

  // ---------------------------------------------------------------------
  // Fetching with request limits

  /** A `fetch_limits` tuple `(req_max, req_timeout)`; it is also the key of
      its counter in the limits table. */
  datatype Limits = Limits(reqMax: int, reqTimeout: int)

  /** A `DataFetcher(url, params, fetch_limits)`. */
  datatype DataFetcher = DataFetcher(url: string, params: map<string, string>, fetchLimits: Option<Limits>)

  /** One HTTP GET the fetcher issued. */
  datatype Request = Request(url: string, params: map<string, string>)

  /** `_FETCHER_LIMITS.setdefault(limits, 0)`: a key not seen yet counts 0. */
  function CounterOf(counters: map<Limits, int>, l: Limits): int {
    if l in counters then counters[l] else 0
  }

  /** The fetch waits `req_timeout` when the counter has reached `req_max`. */
  predicate MustWait(counter: int, l: Limits) { counter == l.reqMax }

  /** The counter after one fetch: reset to 0 after a wait, then one more. */
  function NextCounter(counter: int, l: Limits): (r: int)
    ensures MustWait(counter, l) ==> r == 1
    ensures !MustWait(counter, l) ==> r == counter + 1
    ensures l.reqMax >= 1 && 0 <= counter <= l.reqMax ==> 1 <= r <= l.reqMax
  {
    (if MustWait(counter, l) then 0 else counter) + 1
  }

  /** The counter of a key after `n` fetches with it, starting unseen. */
  function CounterAfterFetches(l: Limits, n: nat): int {
    if n == 0 then 0 else NextCounter(CounterAfterFetches(l, n - 1), l)
  }

  /** The number of waits among those `n` fetches. */
  function WaitsAfterFetches(l: Limits, n: nat): nat {
    if n == 0 then 0
    else WaitsAfterFetches(l, n - 1) + (if MustWait(CounterAfterFetches(l, n - 1), l) then 1 else 0)
  }

  lemma MulMonotone(a: int, b: int, d: nat)
    requires a <= b
    ensures a * d <= b * d
    decreases b - a
  {
    if a < b {
      MulMonotone(a + 1, b, d);
      assert (a + 1) * d == a * d + d;
    }
  }

  lemma DivModUnique(x: int, d: int, q: int, r: int)
    requires d >= 1 && x == q * d + r && 0 <= r < d
    ensures x / d == q && x % d == r
  {
    var q', r' := x / d, x % d;
    assert x == q' * d + r' && 0 <= r' < d;
    if q > q' {
      MulMonotone(q' + 1, q, d);
      assert false;
    } else if q < q' {
      MulMonotone(q + 1, q', d);
      assert false;
    }
  }

  lemma DivModStep(a: nat, d: int)
    requires d >= 1
    ensures a % d == d - 1 ==> (a + 1) % d == 0 && (a + 1) / d == a / d + 1
    ensures a % d != d - 1 ==> (a + 1) % d == a % d + 1 && (a + 1) / d == a / d
  {
    var q, r := a / d, a % d;
    assert a == q * d + r && 0 <= r < d;
    if r == d - 1 {
      DivModUnique(a + 1, d, q + 1, 0);
    } else {
      DivModUnique(a + 1, d, q, r + 1);
    }
  }

  /** After `n >= 1` fetches on a fresh key with `req_max >= 1`, the counter is
      `((n - 1) mod req_max) + 1` and `(n - 1) div req_max` waits happened:
      one wait before every `req_max` fetches after the first batch. */
  lemma {:induction false} FetchesOnFreshKey(l: Limits, n: nat)
    requires l.reqMax >= 1 && n >= 1
    ensures CounterAfterFetches(l, n) == (n - 1) % l.reqMax + 1
    ensures WaitsAfterFetches(l, n) == (n - 1) / l.reqMax
  {
    if n > 1 {
      FetchesOnFreshKey(l, n - 1);
      DivModStep(n - 2, l.reqMax);
    }
  }

  /** With `req_max == 0` only the very first fetch waits: the counter then
      passes `req_max` and the equality test never holds again. */
  lemma {:induction false} ZeroMaxWaitsOnce(l: Limits, n: nat)
    requires l.reqMax == 0 && n >= 1
    ensures CounterAfterFetches(l, n) == n
    ensures WaitsAfterFetches(l, n) == 1
  {
    if n > 1 { ZeroMaxWaitsOnce(l, n - 1); }
  }

  /** The module-level `_FETCHER_LIMITS` table, together with the waits
      (`sleep` calls) and requests that fetches have made. */
  class FetchLimitRegistry {
    var counters: map<Limits, int>
    var waits: seq<int>
    var requests: seq<Request>

    /** Every counter of a limits key with `req_max >= 1` lies in 1..req_max. */
    ghost predicate Valid()
      reads this
    {
      forall l :: l in counters && l.reqMax >= 1 ==> 1 <= counters[l] <= l.reqMax
    }

    constructor ()
      ensures Valid()
      ensures counters == map[] && waits == [] && requests == []
    {
      counters, waits, requests := map[], [], [];
    }

    /** `DataFetcher.fetch_data`: with limits, count the request against its
        key (waiting and resetting first once the key reached `req_max`),
        then issue the request. */
    method FetchData(f: DataFetcher)
      requires Valid()
      modifies this
      ensures Valid()
      ensures requests == old(requests) + [Request(f.url, f.params)]
      ensures f.fetchLimits.None? ==> counters == old(counters) && waits == old(waits)
      ensures f.fetchLimits.Some? ==>
        var l := f.fetchLimits.value;
        var c := CounterOf(old(counters), l);
        && counters == old(counters)[l := NextCounter(c, l)]
        && waits == old(waits) + (if MustWait(c, l) then [l.reqTimeout] else [])
      ensures forall o :: (f.fetchLimits.None? || o != f.fetchLimits.value) ==>
        CounterOf(counters, o) == CounterOf(old(counters), o)
    {
      if f.fetchLimits.Some? {
        var limits := f.fetchLimits.value;
        var reqCounter := CounterOf(counters, limits);
        counters := counters[limits := reqCounter];
        if reqCounter == limits.reqMax {
          waits := waits + [limits.reqTimeout];
          counters := counters[limits := 0];
        }
        counters := counters[limits := counters[limits] + 1];
      }
      requests := requests + [Request(f.url, f.params)];
    }
  }
}
