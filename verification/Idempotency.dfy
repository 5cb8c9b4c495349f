/** The idempotency interceptor: the request text it hashes, the cached response, and what any
    sequence of calls under one key sees. */
module Idempotency {
  import opened Common
  import opened Json
  import opened StableJson
  import CanonicalJson

  datatype Request = Request(verb: Text, url: Text, body: Option<Json>, codeOverride: Option<nat>)

  const BAR: Unit := 124

  // ------------------------------------------------------------------ the hashed text

  function Upper(t: Text): (r: Text)
    ensures |r| == |t|
  {
    seq(|t|, i requires 0 <= i < |t| => if 97 <= t[i] <= 122 then t[i] - 32 else t[i])
  }

  // body ?? null
  function BodyOf(r: Request): Json {
    if r.body.Some? then r.body.value else Null
  }

  function RequestText(r: Request): Text {
    Upper(r.verb) + [BAR] + r.url + [BAR] + Stable(BodyOf(r))
  }

  // Same verb, url and body, up to letter case and key order.
  ghost predicate SameRequest(r: Request, s: Request) {
    Upper(r.verb) == Upper(s.verb) && r.url == s.url && MeaningOf(BodyOf(r)) == MeaningOf(BodyOf(s))
  }

  // ------------------------------------------------------------------ the text is unambiguous

  // Reading printed JSON for its quotes: outside strings it holds no bar and no backslash.
  datatype Mode = Outside | Inside | Escape | Broken

  function Step(m: Mode, u: Unit): Mode {
    match m
    case Outside => if u == QUOTE then Inside else if u == BACKSLASH || u == BAR then Broken else Outside
    case Inside => if u == QUOTE then Outside else if u == BACKSLASH then Escape else Inside
    case Escape => Inside
    case Broken => Broken
  }

  function Scan(m: Mode, t: Text): Mode
    decreases |t|
  {
    if t == [] then m else Scan(Step(m, t[0]), t[1..])
  }

  lemma {:induction false} ScanConcat(m: Mode, a: Text, b: Text)
    ensures Scan(m, a + b) == Scan(Scan(m, a), b)
    decreases |a|
  {
    if a == [] {
      assert a + b == b;
    } else {
      assert (a + b)[1..] == a[1..] + b;
      ScanConcat(Step(m, a[0]), a[1..], b);
    }
  }

  lemma {:induction false} ScanBroken(t: Text)
    ensures Scan(Broken, t) == Broken
  {
    if t != [] {
      ScanBroken(t[1..]);
    }
  }

  lemma ScanPlain(m: Mode, t: Text)
    requires m == Outside || m == Inside
    requires forall u :: u in t ==> u != QUOTE && u != BACKSLASH && u != BAR
    ensures Scan(m, t) == m
  {
    if t != [] {
      assert t[0] in t && forall u :: u in t[1..] ==> u in t;
      ScanPlain(m, t[1..]);
    }
  }

  lemma ScanUnit(u: Unit)
    ensures Scan(Inside, EscapeUnit(u)) == Inside
  {
    if ShortEscape(u).Some? {
      ScanTwo(Inside, BACKSLASH, ShortEscape(u).value);
    } else if u < 32 || HighSurrogate(u) || LowSurrogate(u) {
      var t := UnicodeEscape(u);
      assert t == [BACKSLASH, LETTER_U] + t[2..];
      ScanTwo(Inside, BACKSLASH, LETTER_U);
      ScanConcat(Inside, [BACKSLASH, LETTER_U], t[2..]);
      ScanPlain(Inside, t[2..]);
    } else {
      ScanOne(u);
    }
  }

  lemma ScanTwo(m: Mode, a: Unit, b: Unit)
    ensures Scan(m, [a, b]) == Step(Step(m, a), b)
  {
    assert [a, b] == [a] + [b];
    ScanConcat(m, [a], [b]);
    ScanOne(a);
    ScanOne(b);
  }

  lemma {:induction false} ScanEscaped(s: Text)
    ensures Scan(Inside, Escaped(s)) == Inside
    decreases |s|
  {
    if s == [] {
    } else if 2 <= |s| && HighSurrogate(s[0]) && LowSurrogate(s[1]) {
      ScanTwo(Inside, s[0], s[1]);
      ScanConcat(Inside, [s[0], s[1]], Escaped(s[2..]));
      ScanEscaped(s[2..]);
    } else {
      ScanUnit(s[0]);
      ScanConcat(Inside, EscapeUnit(s[0]), Escaped(s[1..]));
      ScanEscaped(s[1..]);
    }
  }

  lemma ScanQuote(s: Text)
    ensures Scan(Outside, Quote(s)) == Outside
  {
    ScanOne(QUOTE);
    ScanConcat(Outside, [QUOTE], Escaped(s));
    ScanEscaped(s);
    ScanConcat(Outside, [QUOTE] + Escaped(s), [QUOTE]);
  }

  lemma ScanOne(a: Unit)
    ensures forall m :: Scan(m, [a]) == Step(m, a)
  {
    assert [a][1..] == [];
  }

  // a, then one separator, then b, all outside strings.
  lemma ScanAround(a: Text, u: Unit, b: Text)
    requires Scan(Outside, a) == Outside && Scan(Outside, b) == Outside && u in [COMMA, COLON]
    ensures Scan(Outside, a + [u] + b) == Outside
  {
    ScanOne(u);
    ScanConcat(Outside, a, [u]);
    ScanConcat(Outside, a + [u], b);
  }

  lemma ScanBracketed(u: Unit, t: Text, w: Unit)
    requires Scan(Outside, t) == Outside
    requires u in [OPEN_BRACE, OPEN_BRACKET] && w in [CLOSE_BRACE, CLOSE_BRACKET]
    ensures Scan(Outside, [u] + t + [w]) == Outside
  {
    ScanOne(u);
    ScanOne(w);
    ScanConcat(Outside, [u], t);
    ScanConcat(Outside, [u] + t, [w]);
  }

  lemma {:induction false} ScanPrinted(v: Json)
    requires Valid(v)
    ensures Scan(Outside, Print(v)) == Outside
    decreases v
  {
    hide Scan;
    match v
    case Null => ScanPlain(Outside, Print(v));
    case Bool(_) => ScanPlain(Outside, Print(v));
    case Num(token) => ScanPlain(Outside, token);
    case Str(s) => ScanQuote(s);
    case Arr(items) =>
      ScanItems(items);
      ScanBracketed(OPEN_BRACKET, PrintItems(items), CLOSE_BRACKET);
    case Obj(fields) =>
      ScanFields(fields);
      ScanBracketed(OPEN_BRACE, PrintFields(fields), CLOSE_BRACE);
  }

  lemma {:induction false} ScanItems(items: seq<Json>)
    requires forall i :: 0 <= i < |items| ==> Valid(items[i])
    ensures Scan(Outside, PrintItems(items)) == Outside
    decreases items
  {
    if items != [] {
      ScanPrinted(items[0]);
      ScanItems(items[1..]);
      ScanAround(Print(items[0]), COMMA, PrintItems(items[1..]));
    }
  }

  lemma {:induction false} ScanFields(fields: seq<Field>)
    requires forall i :: 0 <= i < |fields| ==> Valid(fields[i].value)
    ensures Scan(Outside, PrintFields(fields)) == Outside
    decreases fields
  {
    if fields != [] {
      ScanQuote(fields[0].key);
      ScanPrinted(fields[0].value);
      ScanAround(Quote(fields[0].key), COLON, Print(fields[0].value));
      ScanFields(fields[1..]);
      ScanAround(PrintField(fields[0]), COMMA, PrintFields(fields[1..]));
    }
  }

  predicate Opposed(p: Mode, q: Mode) {
    (p == Outside && q == Inside) || (p == Inside && q == Outside)
  }

  // Read from outside and from inside at once, the two readings stay opposed until one breaks.
  lemma {:induction false} OpposedReadings(p: Mode, q: Mode, t: Text)
    requires Opposed(p, q) && Scan(p, t) != Broken && Scan(q, t) != Broken
    ensures Opposed(Scan(p, t), Scan(q, t))
    decreases |t|
  {
    if t != [] {
      ScanBroken(t[1..]);
      OpposedReadings(Step(p, t[0]), Step(q, t[0]), t[1..]);
    }
  }

  // No printed value is the tail of another right behind a bar.
  lemma NoValueBehindBar(v: Json, w: Json, x: Text)
    requires Valid(v) && Valid(w)
    ensures Print(w) != x + [BAR] + Print(v)
  {
    hide Valid, Print, Scan;
    ScanPrinted(v);
    ScanPrinted(w);
    var m := Scan(Outside, x);
    ScanOne(BAR);
    ScanConcat(Outside, x, [BAR]);
    ScanConcat(Outside, x + [BAR], Print(v));
    ScanBroken(Print(v));
    if Step(m, BAR) == Inside && Scan(Inside, Print(v)) == Outside {
      OpposedReadings(Outside, Inside, Print(v));
    }
  }

  lemma BarComesLater(a: Text, x: Text, b: Text, y: Text)
    requires BAR !in b && |a| < |b|
    ensures a + [BAR] + x != b + [BAR] + y
  {
    assert (a + [BAR] + x)[|a|] == BAR;
    assert (b + [BAR] + y)[|a|] == b[|a|];
  }

  lemma SplitFirstBar(a: Text, x: Text, b: Text, y: Text)
    requires BAR !in a && BAR !in b && a + [BAR] + x == b + [BAR] + y
    ensures a == b && x == y
  {
    var s, t := a + [BAR] + x, b + [BAR] + y;
    if |a| < |b| { BarComesLater(a, x, b, y); }
    if |b| < |a| { BarComesLater(b, y, a, x); }
    assert a == s[..|a|] && b == t[..|b|] && x == s[|a| + 1..] && y == t[|b| + 1..];
  }

  lemma SplitLastBar(a: Text, v: Json, b: Text, w: Json)
    requires Valid(v) && Valid(w) && a + [BAR] + Print(v) == b + [BAR] + Print(w)
    ensures a == b && Print(v) == Print(w)
  {
    var s, t := a + [BAR] + Print(v), b + [BAR] + Print(w);
    if |b| < |a| {
      TailBehindBar(a, v, b, w);
    } else if |a| < |b| {
      TailBehindBar(b, w, a, v);
    } else {
      assert a == s[..|a|] && b == t[..|b|];
      assert Print(v) == s[|a| + 1..] && Print(w) == t[|b| + 1..];
    }
  }

  lemma TailBehindBar(a: Text, v: Json, b: Text, w: Json)
    requires Valid(v) && Valid(w) && |b| < |a|
    ensures a + [BAR] + Print(v) != b + [BAR] + Print(w)
  {
    var s, t := a + [BAR] + Print(v), b + [BAR] + Print(w);
    var x := a[|b| + 1..];
    NoValueBehindBar(v, w, x);
    assert s[|b| + 1..] == x + [BAR] + Print(v);
    assert t[|b| + 1..] == Print(w);
  }

  // Two requests hash the same text exactly when they are the same request, whatever the urls hold.
  lemma RequestTextTellsApart(r: Request, s: Request)
    requires Valid(BodyOf(r)) && Valid(BodyOf(s)) && BAR !in r.verb && BAR !in s.verb
    ensures RequestText(r) == RequestText(s) <==> SameRequest(r, s)
  {
    hide Stable, Print, Sorted, MeaningOf, Valid, Upper;
    var v, w := BodyOf(r), BodyOf(s);
    StableTellsApart(v, w);
    if RequestText(r) == RequestText(s) {
      var x, y := r.url + [BAR] + Stable(v), s.url + [BAR] + Stable(w);
      assert RequestText(r) == Upper(r.verb) + [BAR] + x;
      assert RequestText(s) == Upper(s.verb) + [BAR] + y;
      UpperKeepsBars(r.verb);
      UpperKeepsBars(s.verb);
      SplitFirstBar(Upper(r.verb), x, Upper(s.verb), y);
      StableIsPrintOfSorted(v);
      StableIsPrintOfSorted(w);
      SortedValid(v);
      SortedValid(w);
      SplitLastBar(r.url, Sorted(v), s.url, Sorted(w));
    }
  }

  lemma UpperKeepsBars(t: Text)
    requires BAR !in t
    ensures BAR !in Upper(t)
  {
    forall i | 0 <= i < |t| ensures Upper(t)[i] != BAR {
      assert t[i] in t;
    }
  }

  // ------------------------------------------------------------------ the cached response

  function Ascii(s: string): (t: Text)
    requires forall i :: 0 <= i < |s| ==> s[i] as int < 128
    ensures |t| == |s|
  {
    seq(|s|, i requires 0 <= i < |s| => s[i] as int)
  }

  const REQUEST_HASH: Text := Ascii("requestHash")
  const RESPONSE_STATUS: Text := Ascii("responseStatus")
  const RESPONSE_BODY: Text := Ascii("responseBody")

  function Payload(hash: Text, status: nat, body: Json): Json {
    Obj([Field(REQUEST_HASH, Str(hash)), Field(RESPONSE_STATUS, Num(CanonicalJson.Decimal(status))),
         Field(RESPONSE_BODY, body)])
  }

  datatype CachedResponse = CachedResponse(requestHash: Text, responseStatus: nat, responseBody: Json)

  function Member(fields: seq<Field>, key: Text): Option<Json> {
    if key in Keys(fields) then Some(fields[IndexOf(fields, key)].value) else None
  }

  // JSON.parse(cachedRaw), seen as the interface it is cast to.
  function ReadPayload(raw: Text): Option<CachedResponse> {
    var v := Parse(raw);
    if v.None? || !v.value.Obj? then None else
      var h, status, body := Member(v.value.fields, REQUEST_HASH), Member(v.value.fields, RESPONSE_STATUS),
                             Member(v.value.fields, RESPONSE_BODY);
      if h.Some? && h.value.Str? && status.Some? && status.value.Num? && body.Some?
         && CanonicalJson.Number(status.value.token) >= 0 then
        Some(CachedResponse(h.value.s, CanonicalJson.Number(status.value.token), body.value))
      else None
  }

  lemma PayloadReadsBack(hash: Text, status: nat, body: Json)
    requires Valid(body)
    ensures ReadPayload(Print(Payload(hash, status, body))) == Some(CachedResponse(hash, status, body))
  {
    var v := Payload(hash, status, body);
    var fields := v.fields;
    assert Keys(fields)[0] == REQUEST_HASH && Keys(fields)[1] == RESPONSE_STATUS && Keys(fields)[2] == RESPONSE_BODY;
    assert |REQUEST_HASH| == 11 && |RESPONSE_STATUS| == 14 && |RESPONSE_BODY| == 12;
    PrintThenParse(v);
  }

  // ------------------------------------------------------------------ one call

  const TTL_MS := 86_400_000

  // A Redis string with its expiry.
  datatype Slot = Slot(raw: Text, expireAt: int)

  // handler: the wrapped body, or none when the handler throws. writes: the cache write goes through.
  datatype Call = Call(now: int, key: Option<Text>, request: Request, handler: Option<Json>, writes: bool)

  datatype Outcome =
    | KeyRequired
    | KeyReused
    | Replayed(status: nat, body: Json)
    | Ran(status: nat, body: Json)
    | HandlerFailed
    | Unreadable

  const POST: Text := [80, 79, 83, 84]

  function StatusFor(r: Request): nat {
    if r.codeOverride.Some? then r.codeOverride.value else if r.verb == POST then 201 else 200
  }

  predicate Keyed(c: Call) {
    c.key.Some? && c.key.value != []
  }

  function Fetch(cache: map<Text, Slot>, key: Text, now: int): Option<Text> {
    if key in cache && now <= cache[key].expireAt then Some(cache[key].raw) else None
  }

  function SlotFor(hash: Text -> Text, c: Call, body: Json): Slot {
    Slot(Print(Payload(hash(RequestText(c.request)), StatusFor(c.request), body)), c.now + TTL_MS)
  }

  function Serve(hash: Text -> Text, cache: map<Text, Slot>, c: Call): (map<Text, Slot>, Outcome) {
    if !Keyed(c) then (cache, KeyRequired) else
      match Fetch(cache, c.key.value, c.now)
      case Some(raw) =>
        (cache,
         match ReadPayload(raw)
         case Some(cached) =>
           if cached.requestHash != hash(RequestText(c.request)) then KeyReused
           else Replayed(cached.responseStatus, cached.responseBody)
         case None => Unreadable)
      case None =>
        match c.handler
        case None => (cache, HandlerFailed)
        case Some(body) =>
          (if c.writes then cache[c.key.value := SlotFor(hash, c, body)] else cache, Ran(StatusFor(c.request), body))
  }

  class IdempotencyInterceptor {
    const hash: Text -> Text
    var cache: map<Text, Slot>

    constructor (hash: Text -> Text)
      ensures this.hash == hash && cache == map[]
    {
      this.hash, cache := hash, map[];
    }

    method Intercept(c: Call) returns (o: Outcome)
      modifies this
      ensures (cache, o) == Serve(hash, old(cache), c)
    {
      if c.key.None? || c.key.value == [] {
        return KeyRequired;
      }
      var requestHash := hash(RequestText(c.request));
      var cachedRaw := Fetch(cache, c.key.value, c.now);
      if cachedRaw.Some? {
        var cached := ReadPayload(cachedRaw.value);
        if cached.None? {
          return Unreadable;
        }
        if cached.value.requestHash != requestHash {
          return KeyReused;
        }
        return Replayed(cached.value.responseStatus, cached.value.responseBody);
      }
      var responseStatus := StatusFor(c.request);
      if c.handler.None? {
        return HandlerFailed;
      }
      if c.writes {
        var payload := Payload(requestHash, responseStatus, c.handler.value);
        cache := cache[c.key.value := Slot(Print(payload), c.now + TTL_MS)];
      }
      o := Ran(responseStatus, c.handler.value);
    }
  }

  // ------------------------------------------------------------------ many calls

  // The cache after the first n calls, from an empty one.
  function CacheAfter(hash: Text -> Text, calls: seq<Call>, n: nat): map<Text, Slot>
    requires n <= |calls|
  {
    if n == 0 then map[] else Serve(hash, CacheAfter(hash, calls, n - 1), calls[n - 1]).0
  }

  function OutcomeOf(hash: Text -> Text, calls: seq<Call>, i: nat): Outcome
    requires i < |calls|
  {
    Serve(hash, CacheAfter(hash, calls, i), calls[i]).1
  }

  ghost predicate Injective(hash: Text -> Text) {
    forall a, b :: hash(a) == hash(b) ==> a == b
  }

  // One after another, with values that JSON can carry, and every cache write going through.
  ghost predicate Orderly(calls: seq<Call>) {
    && (forall i, j :: 0 <= i < j < |calls| ==> calls[i].now <= calls[j].now)
    && (forall i :: 0 <= i < |calls| ==> CallOk(calls[i]))
  }

  ghost predicate CallOk(c: Call) {
    c.writes && Valid(BodyOf(c.request)) && BAR !in c.request.verb && (c.handler.Some? ==> Valid(c.handler.value))
  }

  // Call i ran its handler to success under the key.
  ghost predicate Stored(hash: Text -> Text, calls: seq<Call>, i: nat, key: Text)
    requires i < |calls|
  {
    Keyed(calls[i]) && calls[i].key.value == key && OutcomeOf(hash, calls, i).Ran?
  }

  // The cache holds, under each key, the response of the last successful call.
  lemma {:induction false} LastStored(hash: Text -> Text, calls: seq<Call>, n: nat, key: Text) returns (i: int)
    requires Orderly(calls) && n <= |calls|
    ensures -1 <= i < n
    ensures i == -1 <==> key !in CacheAfter(hash, calls, n)
    ensures 0 <= i ==> Stored(hash, calls, i, key)
                       && CacheAfter(hash, calls, n)[key] == SlotFor(hash, calls[i], OutcomeOf(hash, calls, i).body)
    ensures forall j :: i < j < n ==> !Stored(hash, calls, j, key)
  {
    hide ReadPayload, SlotFor, StatusFor;
    if n == 0 {
      return -1;
    }
    assert CallOk(calls[n - 1]);
    i := LastStored(hash, calls, n - 1, key);
    if Stored(hash, calls, n - 1, key) {
      i := n - 1;
    }
  }

  ghost predicate Recent(calls: seq<Call>, i: nat, j: nat)
    requires i < j < |calls|
  {
    calls[j].now <= calls[i].now + TTL_MS
  }

  // For 24 hours after a success, the same request gets the stored response and any other request
  // under the key is refused; neither runs the handler.
  lemma {:induction false} RepeatsReplay(hash: Text -> Text, calls: seq<Call>, i: nat, j: nat)
    requires Injective(hash) && Orderly(calls) && i < j < |calls|
    requires Keyed(calls[i]) && Stored(hash, calls, i, calls[i].key.value)
    requires Keyed(calls[j]) && calls[j].key == calls[i].key && Recent(calls, i, j)
    ensures var first := OutcomeOf(hash, calls, i);
      OutcomeOf(hash, calls, j)
      == if SameRequest(calls[i].request, calls[j].request) then Replayed(first.status, first.body) else KeyReused
    decreases j
  {
    hide RequestText, SameRequest, ReadPayload, StatusFor;
    var key := calls[j].key.value;
    var l := LastStored(hash, calls, j, key);
    assert !(i < l) by {
      if i < l {
        assert calls[l].now <= calls[j].now;
        RepeatsReplay(hash, calls, i, l);
      }
    }
    HitReads(hash, calls, i, j);
  }

  lemma HitReads(hash: Text -> Text, calls: seq<Call>, i: nat, j: nat)
    requires Injective(hash) && Orderly(calls) && i < j < |calls|
    requires Keyed(calls[i]) && Stored(hash, calls, i, calls[i].key.value)
    requires Keyed(calls[j]) && calls[j].key == calls[i].key && Recent(calls, i, j)
    requires calls[j].key.value in CacheAfter(hash, calls, j)
    requires CacheAfter(hash, calls, j)[calls[j].key.value] == SlotFor(hash, calls[i], OutcomeOf(hash, calls, i).body)
    ensures var first := OutcomeOf(hash, calls, i);
      OutcomeOf(hash, calls, j)
      == if SameRequest(calls[i].request, calls[j].request) then Replayed(first.status, first.body) else KeyReused
  {
    hide RequestText, SameRequest, ReadPayload, Payload, CacheAfter;
    assert CallOk(calls[i]) && CallOk(calls[j]);
    var first := OutcomeOf(hash, calls, i);
    assert calls[i].handler == Some(first.body) && first.status == StatusFor(calls[i].request);
    PayloadReadsBack(hash(RequestText(calls[i].request)), first.status, first.body);
    RequestTextTellsApart(calls[i].request, calls[j].request);
  }

  // A keyed call runs its handler exactly when no call under its key succeeded in the last 24 hours.
  lemma HandlerRunsExactlyWhen(hash: Text -> Text, calls: seq<Call>, j: nat)
    requires Injective(hash) && Orderly(calls) && j < |calls| && Keyed(calls[j])
    ensures OutcomeOf(hash, calls, j).Ran? || OutcomeOf(hash, calls, j).HandlerFailed?
       <==> !exists i :: 0 <= i < j && Stored(hash, calls, i, calls[j].key.value) && Recent(calls, i, j)
  {
    hide ReadPayload, RequestText, StatusFor;
    var key := calls[j].key.value;
    if i :| 0 <= i < j && Stored(hash, calls, i, key) && Recent(calls, i, j) {
      RepeatsReplay(hash, calls, i, j);
    } else {
      var l := LastStored(hash, calls, j, key);
      assert 0 <= l ==> !Recent(calls, l, j);
    }
  }

  // So two successes under one key are more than 24 hours apart.
  lemma SucceedsOnce(hash: Text -> Text, calls: seq<Call>, i: nat, j: nat, key: Text)
    requires Injective(hash) && Orderly(calls) && i < j < |calls|
    requires Stored(hash, calls, i, key) && Stored(hash, calls, j, key)
    ensures calls[i].now + TTL_MS < calls[j].now
  {
    if Recent(calls, i, j) {
      RepeatsReplay(hash, calls, i, j);
    }
  }

  // ------------------------------------------------------------------ what a call answers

  // A call without a key, and only such a call, is asked for one; it leaves the cache alone, as does
  // every call that does not run its handler to success.
  lemma KeylessIsRefused(hash: Text -> Text, cache: map<Text, Slot>, c: Call)
    ensures var (cache', o) := Serve(hash, cache, c);
      && (o == KeyRequired <==> c.key == None || c.key == Some([]))
      && (!o.Ran? ==> cache' == cache)
  {
    hide ReadPayload, RequestText;
  }

  // A handler that ran answers with its body, under the route's own status, or 201 for a POST and 200
  // for anything else; only its key is written, for 24 hours.
  lemma RanAnswers(hash: Text -> Text, cache: map<Text, Slot>, c: Call)
    requires Serve(hash, cache, c).1.Ran?
    ensures var (cache', o) := Serve(hash, cache, c);
      && c.handler == Some(o.body)
      && o.status == (if c.request.codeOverride.Some? then c.request.codeOverride.value
                      else if c.request.verb == Ascii("POST") then 201 else 200)
      && (forall key :: Some(key) != c.key ==> Fetch(cache', key, c.now) == Fetch(cache, key, c.now))
      && (c.writes ==> forall now :: c.now <= now ==>
            (Fetch(cache', c.key.value, now).Some? <==> now <= c.now + 86_400_000))
  {
    hide ReadPayload, RequestText;
    assert Ascii("POST") == POST;
  }
}
