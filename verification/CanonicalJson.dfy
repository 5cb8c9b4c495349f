/** The audit trail's canonical printer, which sorts keys by filling a fresh JavaScript object, and
    exactly when it agrees with the idempotency interceptor's printer. */
module CanonicalJson {
  import opened Common
  import opened Json
  import opened StableJson

  // ------------------------------------------------------------------ own keys of an object

  const PROTO: Text := [95, 95, 112, 114, 111, 116, 111, 95, 95]

  const MAX_INDEX := 0xFFFF_FFFF

  function Number(digits: Text): int {
    if digits == [] then 0 else 10 * Number(digits[..|digits| - 1]) + (digits[|digits| - 1] as int - 48)
  }

  // An array index: a canonical decimal below 2^32 - 1. An object lists such keys first.
  predicate IsIndex(key: Text) {
    && key != [] && (forall i :: 0 <= i < |key| ==> 48 <= key[i] <= 57)
    && (|key| == 1 || key[0] != 48) && Number(key) < MAX_INDEX
  }

  function Decimal(n: nat): (t: Text)
    ensures t != [] && forall i :: 0 <= i < |t| ==> 48 <= t[i] <= 57
    ensures Number(t) == n
  {
    if n < 10 then [48 + n] else
      var t := Decimal(n / 10) + [48 + n % 10];
      assert t[..|t| - 1] == Decimal(n / 10);
      t
  }

  // A text of digits with no zero in front is the decimal text of its number.
  lemma {:induction false} DecimalOfNumber(key: Text)
    requires key != [] && (forall i :: 0 <= i < |key| ==> 48 <= key[i] <= 57) && (|key| == 1 || key[0] != 48)
    ensures 0 <= Number(key) && Decimal(Number(key)) == key && (key[0] != 48 ==> 0 < Number(key))
    decreases |key|
  {
    var n := |key| - 1;
    var init, d := key[..n], key[n] as int - 48;
    assert key == init + [key[n]];
    if n == 0 {
      assert Number(init) == 0;
    } else {
      DecimalOfNumber(init);
      assert Number(key) / 10 == Number(init) && Number(key) % 10 == d;
    }
  }

  lemma {:induction false} DecimalHasNoZero(n: nat)
    ensures |Decimal(n)| == 1 || Decimal(n)[0] != 48
    ensures 0 < n ==> Decimal(n)[0] != 48
  {
    if 10 <= n {
      DecimalHasNoZero(n / 10);
    }
  }

  // The index keys are the decimal texts of 0 to 4294967294.
  lemma IndexKeysExactly(key: Text)
    ensures IsIndex(key) <==> exists n: nat :: n < 4_294_967_295 && key == Decimal(n)
  {
    if IsIndex(key) {
      DecimalOfNumber(key);
      var n: nat := Number(key);
      assert key == Decimal(n);
    }
    if n: nat :| n < 4_294_967_295 && key == Decimal(n) {
      DecimalHasNoZero(n);
    }
  }

  // Where an index key goes among the own keys.
  function Place(out: seq<Field>, key: Text): (p: nat)
    ensures p <= |out|
    ensures forall i :: 0 <= i < p ==> IsIndex(out[i].key) && Number(out[i].key) <= Number(key)
    ensures p < |out| ==> !IsIndex(out[p].key) || Number(key) < Number(out[p].key)
  {
    if out == [] || !IsIndex(out[0].key) || Number(key) < Number(out[0].key) then 0
    else 1 + Place(out[1..], key)
  }

  function InsertIndex(out: seq<Field>, f: Field): seq<Field> {
    var p := Place(out, f.key);
    out[..p] + [f] + out[p..]
  }

  // out[key] = value on an ordinary object: "__proto__" reaches the prototype's setter and makes no
  // own key, a known key keeps its place, an index key goes to its numeric place.
  function Assign(out: seq<Field>, f: Field): seq<Field> {
    if f.key == PROTO then out
    else if f.key in Keys(out) then out[IndexOf(out, f.key) := f]
    else if IsIndex(f.key) then InsertIndex(out, f)
    else out + [f]
  }

  // ------------------------------------------------------------------ the printer

  function Canonical(v: Json): Json
    decreases v
  {
    match v
    case Arr(items) => Arr(seq(|items|, i requires 0 <= i < |items| => Canonical(items[i])))
    case Obj(fields) => Obj(Assigned(fields, SortKeys(Keys(fields))))
    case _ => v
  }

  // The object after its assignments for the given keys, in their order.
  function Assigned(fields: seq<Field>, keys: seq<Text>): seq<Field>
    requires Covers(fields, keys)
    decreases fields, |keys|
  {
    if keys == [] then [] else
      var n := |keys| - 1;
      var k := keys[n];
      CoversPrefix(fields, keys);
      Assign(Assigned(fields, keys[..n]), Field(k, Canonical(fields[IndexOf(fields, k)].value)))
  }

  method Canonicalize(v: Json) returns (r: Json)
    ensures r == Canonical(v)
    decreases v
  {
    match v
    case Arr(items) =>
      var out: seq<Json> := [];
      for i := 0 to |items|
        invariant |out| == i && forall j :: 0 <= j < i ==> out[j] == Canonical(items[j])
      {
        var item := Canonicalize(items[i]);
        out := out + [item];
      }
      r := Arr(out);
    case Obj(fields) =>
      var sortedKeys := SortKeys(Keys(fields));
      var out: seq<Field> := [];
      for i := 0 to |sortedKeys|
        invariant Covers(fields, sortedKeys[..i]) && out == Assigned(fields, sortedKeys[..i])
      {
        var key := sortedKeys[i];
        assert sortedKeys[..i + 1][..i] == sortedKeys[..i];
        var value := Canonicalize(fields[IndexOf(fields, key)].value);
        out := Assign(out, Field(key, value));
      }
      assert sortedKeys[..|sortedKeys|] == sortedKeys;
      r := Obj(out);
    case _ => r := v;
  }

  method CanonicalJSONStringify(v: Json) returns (text: Text)
    ensures text == Print(Canonical(v))
    ensures Valid(v) ==> Parse(text) == Some(Canonical(v)) && (text == Stable(v) <==> Plain(v))
  {
    var c := Canonicalize(v);
    text := Print(c);
    if Valid(v) {
      CanonicalValid(v);
      PrintThenParse(c);
      PrintersAgreeExactly(v);
    }
  }

  // ------------------------------------------------------------------ what the filled object holds

  // Index keys first and ascending.
  ghost predicate IndicesFirst(keys: seq<Text>) {
    forall i, j :: 0 <= i < j < |keys| && IsIndex(keys[j]) ==> IsIndex(keys[i]) && Number(keys[i]) < Number(keys[j])
  }

  lemma InsertKeepsIndicesFirst(out: seq<Field>, f: Field)
    requires IndicesFirst(Keys(out)) && IsIndex(f.key)
    requires forall i :: 0 <= i < |out| && IsIndex(out[i].key) ==> Number(out[i].key) != Number(f.key)
    ensures IndicesFirst(Keys(InsertIndex(out, f)))
  {
    hide IsIndex, Number, Place;
    var p, keys, r := Place(out, f.key), Keys(out), Keys(InsertIndex(out, f));
    assert r == keys[..p] + [f.key] + keys[p..];
    forall i, j | 0 <= i < j < |r| && IsIndex(r[j]) ensures IsIndex(r[i]) && Number(r[i]) < Number(r[j]) {
      if j > p {
        assert r[j] == keys[j - 1];
        assert p < j - 1 ==> IsIndex(keys[p]) && Number(keys[p]) < Number(keys[j - 1]);
        assert i < p ==> IsIndex(keys[i]) && Number(keys[i]) < Number(keys[j - 1]);
        assert i > p ==> r[i] == keys[i - 1];
      } else {
        assert r[i] == keys[i];
        assert j < p ==> r[j] == keys[j];
      }
    }
  }

  // Two index keys with the same number are the same key.
  lemma {:induction false} NumberIsInjective(a: Text, b: Text)
    requires |a| == |b| && Number(a) == Number(b)
    requires forall i :: 0 <= i < |a| ==> 48 <= a[i] <= 57 && 48 <= b[i] <= 57
    ensures a == b
  {
    if a != [] {
      var n := |a| - 1;
      var p, q := Number(a[..n]), Number(b[..n]);
      assert 10 * p + (a[n] - 48) == 10 * q + (b[n] - 48);
      NumberIsInjective(a[..n], b[..n]);
      assert a == a[..n] + [a[n]] && b == b[..n] + [b[n]];
    }
  }

  function Power(n: nat): nat {
    if n == 0 then 1 else 10 * Power(n - 1)
  }

  lemma {:induction false} NumberBounds(a: Text)
    requires forall i :: 0 <= i < |a| ==> 48 <= a[i] <= 57
    ensures 0 <= Number(a) < Power(|a|)
    ensures a != [] && a[0] != 48 ==> Power(|a| - 1) <= Number(a)
  {
    if a != [] {
      NumberBounds(a[..|a| - 1]);
    }
  }

  lemma PowerGrows(m: nat, n: nat)
    requires m <= n
    ensures Power(m) <= Power(n)
  {
    if m < n {
      PowerGrows(m, n - 1);
    }
  }

  lemma IndexNumbersDiffer(a: Text, b: Text)
    requires IsIndex(a) && IsIndex(b) && a != b
    ensures Number(a) != Number(b)
  {
    if |a| == |b| {
      if Number(a) == Number(b) {
        NumberIsInjective(a, b);
      }
    } else {
      var s, l := if |a| < |b| then a else b, if |a| < |b| then b else a;
      NumberBounds(s);
      NumberBounds(l);
      PowerGrows(|s|, |l| - 1);
    }
  }

  // Each own field is one of the keys with its canonical value, and index keys come first.
  lemma {:induction false} AssignedFields(fields: seq<Field>, keys: seq<Text>)
    requires Covers(fields, keys) && Distinct(keys)
    ensures forall f :: f in Assigned(fields, keys) ==>
      f.key in keys && f.key != PROTO && f.value == Canonical(fields[IndexOf(fields, f.key)].value)
    ensures IndicesFirst(Keys(Assigned(fields, keys)))
    ensures |Assigned(fields, keys)| <= |keys|
    decreases |keys|
  {
    hide IsIndex, Number, Canonical, IndexOf, Assign;
    if keys != [] {
      var n := |keys| - 1;
      var k := keys[n];
      assert k in keys && k !in keys[..n] && forall x :: x in keys[..n] ==> x in keys;
      AssignedFields(fields, keys[..n]);
      var out := Assigned(fields, keys[..n]);
      AssignNewKey(out, Field(k, Canonical(fields[IndexOf(fields, k)].value)));
    }
  }

  lemma AssignNewKey(out: seq<Field>, f: Field)
    requires IndicesFirst(Keys(out)) && forall g :: g in out ==> g.key != f.key
    ensures IndicesFirst(Keys(Assign(out, f))) && |Assign(out, f)| <= |out| + 1
    ensures forall g :: g in Assign(out, f) ==> g in out || (g == f && f.key != PROTO)
  {
    hide Number, Place;
    assert forall i :: 0 <= i < |out| ==> out[i] in out;
    if IsIndex(f.key) {
      forall i | 0 <= i < |out| && IsIndex(out[i].key) ensures Number(out[i].key) != Number(f.key) {
        IndexNumbersDiffer(out[i].key, f.key);
      }
      InsertKeepsIndicesFirst(out, f);
    }
  }

  // The keys that are no index stay in the order in which they were assigned.
  ghost predicate OthersInOrder(keys: seq<Text>) {
    forall i, j :: 0 <= i < j < |keys| && !IsIndex(keys[i]) && !IsIndex(keys[j]) ==> Less(keys[i], keys[j])
  }

  // Every key but "__proto__" is kept, index keys first and ascending as numbers, then the others as
  // they were sorted.
  lemma {:induction false} FilledKeysExactly(fields: seq<Field>, keys: seq<Text>)
    requires Covers(fields, keys) && Ascending(keys)
    ensures var filled := Keys(Assigned(fields, keys));
      && (forall k :: k in filled <==> k in keys && k != PROTO)
      && IndicesFirst(filled) && OthersInOrder(filled)
    decreases |keys|
  {
    hide IsIndex, Number, Canonical, IndexOf, Assign, Less, IndicesFirst, OthersInOrder;
    AscendingDistinct(keys);
    AssignedFields(fields, keys);
    if keys == [] {
      NoneOutOfOrder();
    } else {
      var n := |keys| - 1;
      var k, before := keys[n], keys[..n];
      assert k in keys && k !in before && forall x :: x in keys <==> x in before || x == k;
      CoversPrefix(fields, keys);
      FilledKeysExactly(fields, before);
      var out := Assigned(fields, before);
      forall x | x in before ensures Less(x, k) {
        var i :| 0 <= i < n && before[i] == x;
        assert keys[i] == x;
      }
      AssignKeysExactly(out, Field(k, Canonical(fields[IndexOf(fields, k)].value)));
    }
  }

  lemma NoneOutOfOrder()
    ensures IndicesFirst([]) && OthersInOrder([])
  {}

  lemma AssignKeysExactly(out: seq<Field>, f: Field)
    requires f.key !in Keys(out) && OthersInOrder(Keys(out))
    requires forall k :: k in Keys(out) ==> Less(k, f.key)
    ensures forall k :: k in Keys(Assign(out, f)) <==> k in Keys(out) || (k == f.key && k != PROTO)
    ensures OthersInOrder(Keys(Assign(out, f)))
  {
    hide IsIndex, Number, Less, InsertIndex;
    if f.key != PROTO {
      if IsIndex(f.key) {
        InsertKeysExactly(out, f);
      } else {
        assert Keys(out + [f]) == Keys(out) + [f.key];
      }
    }
  }

  lemma InsertKeysExactly(out: seq<Field>, f: Field)
    requires OthersInOrder(Keys(out)) && IsIndex(f.key)
    ensures forall k :: k in Keys(InsertIndex(out, f)) <==> k in Keys(out) || k == f.key
    ensures OthersInOrder(Keys(InsertIndex(out, f)))
  {
    hide IsIndex, Number, Less, Place;
    var p, keys, r := Place(out, f.key), Keys(out), Keys(InsertIndex(out, f));
    assert r == keys[..p] + [f.key] + keys[p..];
    assert keys == keys[..p] + keys[p..];
    forall i, j | 0 <= i < j < |r| && !IsIndex(r[i]) && !IsIndex(r[j]) ensures Less(r[i], r[j]) {
      assert i != p && j != p;
      assert keys[if i < p then i else i - 1] == r[i] && keys[if j < p then j else j - 1] == r[j];
    }
  }

  // ------------------------------------------------------------------ when the two printers agree

  ghost predicate NoLateIndex(keys: seq<Text>) {
    forall a, b :: a in keys && b in keys && Less(a, b) && IsIndex(b) ==> IsIndex(a) && Number(a) < Number(b)
  }

  lemma SortedIndicesFirst(keys: seq<Text>)
    requires Ascending(keys)
    ensures IndicesFirst(keys) <==> NoLateIndex(keys)
  {
    hide IsIndex, Number, Less;
    if IndicesFirst(keys) {
      forall a, b | a in keys && b in keys && Less(a, b) && IsIndex(b) ensures IsIndex(a) && Number(a) < Number(b) {
        var i :| 0 <= i < |keys| && keys[i] == a;
        var j :| 0 <= j < |keys| && keys[j] == b;
        LessIsTotal(a, b);
      }
    }
  }

  // No object has the key "__proto__", and in no object does an index key sort after a key that an
  // object would list behind it.
  ghost predicate Plain(v: Json)
    decreases v
  {
    match v
    case Arr(items) => forall i :: 0 <= i < |items| ==> Plain(items[i])
    case Obj(fields) =>
      && PROTO !in Keys(fields) && NoLateIndex(Keys(fields))
      && (forall i :: 0 <= i < |fields| ==> Plain(fields[i].value))
    case _ => true
  }

  lemma AppendsKey(out: seq<Field>, f: Field)
    requires f.key != PROTO && f.key !in Keys(out)
    requires IsIndex(f.key) ==>
      forall i :: 0 <= i < |out| ==> IsIndex(out[i].key) && Number(out[i].key) < Number(f.key)
    ensures Assign(out, f) == out + [f]
  {
    hide Place, IsIndex, Number;
  }

  ghost predicate ValuesAgree(fields: seq<Field>, keys: seq<Text>)
    requires Covers(fields, keys)
  {
    forall k :: k in keys ==> ValueAgrees(fields, k)
  }

  ghost predicate ValueAgrees(fields: seq<Field>, k: Text)
    requires k in Keys(fields)
  {
    Canonical(fields[IndexOf(fields, k)].value) == Sorted(fields[IndexOf(fields, k)].value)
  }

  lemma FillStep(fields: seq<Field>, keys: seq<Text>)
    requires keys != [] && Covers(fields, keys) && Distinct(keys) && IndicesFirst(keys) && PROTO !in keys
    requires ValuesAgree(fields, keys)
    requires var n := |keys| - 1;
      Covers(fields, keys[..n]) && Assigned(fields, keys[..n]) == SortedFields(fields, keys[..n])
    ensures Assigned(fields, keys) == SortedFields(fields, keys)
  {
    hide IsIndex, Number, Canonical, Sorted, IndexOf, Assign;
    var n := |keys| - 1;
    var k := keys[n];
    assert k in keys && ValueAgrees(fields, k);
    var out := SortedFields(fields, keys[..n]);
    assert Keys(out) == keys[..n];
    AppendsKey(out, Field(k, Sorted(fields[IndexOf(fields, k)].value)));
  }

  // Filling in sorted order appends, as long as no key is special.
  lemma {:induction false} FillingAppends(fields: seq<Field>, keys: seq<Text>)
    requires Covers(fields, keys) && Distinct(keys) && IndicesFirst(keys) && PROTO !in keys
    requires ValuesAgree(fields, keys)
    ensures Assigned(fields, keys) == SortedFields(fields, keys)
    decreases |keys|
  {
    hide IsIndex, Number, ValueAgrees;
    if keys != [] {
      CoversPrefix(fields, keys);
      FillingAppends(fields, keys[..|keys| - 1]);
      FillStep(fields, keys);
    }
  }

  lemma {:induction false} PlainAgrees(v: Json)
    requires Valid(v) && Plain(v)
    ensures Canonical(v) == Sorted(v)
    decreases v
  {
    match v
    case Arr(items) =>
      forall i | 0 <= i < |items| ensures Canonical(items[i]) == Sorted(items[i]) {
        PlainAgrees(items[i]);
      }
    case Obj(fields) =>
      forall i | 0 <= i < |fields| ensures Canonical(fields[i].value) == Sorted(fields[i].value) {
        PlainAgrees(fields[i].value);
      }
      SortedAscending(Keys(fields));
      SortedIndicesFirst(SortKeys(Keys(fields)));
      FillingAppends(fields, SortKeys(Keys(fields)));
    case _ =>
  }

  lemma {:induction false} AgreeingIsPlain(v: Json)
    requires Valid(v) && Canonical(v) == Sorted(v)
    ensures Plain(v)
    decreases v
  {
    match v
    case Arr(items) =>
      forall i | 0 <= i < |items| ensures Plain(items[i]) {
        assert Canonical(v).items[i] == Sorted(v).items[i];
        AgreeingIsPlain(items[i]);
      }
    case Obj(fields) =>
      var keys := SortKeys(Keys(fields));
      AgreeingKeysArePlain(fields);
      forall i | 0 <= i < |fields| ensures Plain(fields[i].value) {
        assert Keys(fields)[i] in keys;
        assert IndexOf(fields, fields[i].key) == i && ValueAgrees(fields, fields[i].key);
        AgreeingIsPlain(fields[i].value);
      }
    case _ =>
  }

  lemma AgreeingKeysArePlain(fields: seq<Field>)
    requires Distinct(Keys(fields)) && Canonical(Obj(fields)) == Sorted(Obj(fields))
    ensures PROTO !in Keys(fields) && NoLateIndex(Keys(fields))
    ensures ValuesAgree(fields, Keys(fields))
  {
    hide IsIndex, Number, Less, IndexOf, Assigned;
    var keys := SortKeys(Keys(fields));
    SortedAscending(Keys(fields));
    AssignedFields(fields, keys);
    var out := SortedFields(fields, keys);
    SortedIndicesFirst(keys);
    forall k | k in Keys(fields)
      ensures k != PROTO && ValueAgrees(fields, k)
    {
      var i :| 0 <= i < |keys| && keys[i] == k;
      assert out[i] in out;
    }
  }

  lemma {:induction false} CanonicalValid(v: Json)
    requires Valid(v)
    ensures Valid(Canonical(v))
    decreases v
  {
    match v
    case Arr(items) =>
      forall i | 0 <= i < |items| ensures Valid(Canonical(items[i])) {
        CanonicalValid(items[i]);
      }
    case Obj(fields) =>
      var keys := SortKeys(Keys(fields));
      forall i | 0 <= i < |fields| ensures Valid(Canonical(fields[i].value)) {
        CanonicalValid(fields[i].value);
      }
      SortedAscending(Keys(fields));
      AssignedFields(fields, keys);
      AssignedDistinct(fields, keys);
      var out := Assigned(fields, keys);
      forall i | 0 <= i < |out| ensures Valid(out[i].value) {
        assert out[i] in out;
      }
    case _ =>
  }

  lemma {:induction false} AssignedDistinct(fields: seq<Field>, keys: seq<Text>)
    requires Covers(fields, keys) && Distinct(keys)
    ensures Distinct(Keys(Assigned(fields, keys)))
    decreases |keys|
  {
    hide IsIndex, Canonical, IndexOf, Assign;
    if keys != [] {
      var n := |keys| - 1;
      var k := keys[n];
      assert k in keys && k !in keys[..n] && forall x :: x in keys[..n] ==> x in keys;
      AssignedDistinct(fields, keys[..n]);
      AssignedFields(fields, keys[..n]);
      var out := Assigned(fields, keys[..n]);
      assert forall i :: 0 <= i < |out| ==> out[i] in out;
      AssignKeepsDistinct(out, Field(k, Canonical(fields[IndexOf(fields, k)].value)));
    }
  }

  lemma AssignKeepsDistinct(out: seq<Field>, f: Field)
    requires Distinct(Keys(out)) && f.key !in Keys(out)
    ensures Distinct(Keys(Assign(out, f)))
  {
    hide Place, IsIndex;
    var p, keys := Place(out, f.key), Keys(out);
    assert Keys(InsertIndex(out, f)) == keys[..p] + [f.key] + keys[p..];
    assert Keys(out + [f]) == keys + [f.key];
  }

  // The canonical text and the stable text are the same exactly for plain values.
  lemma PrintersAgreeExactly(v: Json)
    requires Valid(v)
    ensures Print(Canonical(v)) == Stable(v) <==> Plain(v)
  {
    StableIsPrintOfSorted(v);
    SortedValid(v);
    CanonicalValid(v);
    PrintIsInjective(Canonical(v), Sorted(v));
    if Plain(v) {
      PlainAgrees(v);
    } else if Canonical(v) == Sorted(v) {
      AgreeingIsPlain(v);
    }
  }

  // An object with the keys "10" and "2": sorted by code unit, listed by number.
  const INDEX_KEYS := Obj([Field([49, 48], Null), Field([50], Null)])

  const PROTO_KEY := Obj([Field(PROTO, Null)])

  lemma IndexKeysAreNotPlain()
    ensures Valid(INDEX_KEYS) && !Plain(INDEX_KEYS)
  {
    var ten: Text, two: Text := [49, 48], [50];
    var keys := Keys(INDEX_KEYS.fields);
    assert keys[0] == ten && keys[1] == two && keys[0][0] != keys[1][0];
    assert ten[..1] == [49] && [49][..0] == [] && two[..0] == [];
    assert Number([49]) == 1;
    assert Number(ten) == 10 && Number(two) == 2;
    assert IsIndex(two) && Less(ten, two);
  }

  lemma ProtoKeyIsNotPlain()
    ensures Valid(PROTO_KEY) && !Plain(PROTO_KEY)
  {
    var fields := [Field(PROTO, Null)];
    assert PROTO_KEY == Obj(fields) && |Keys(fields)| == 1 && Keys(fields)[0] == PROTO;
    assert PROTO in Keys(fields);
    assert Valid(fields[0].value);
  }

  lemma PrintersDiffer()
    ensures Valid(INDEX_KEYS) && Print(Canonical(INDEX_KEYS)) != Stable(INDEX_KEYS)
    ensures Valid(PROTO_KEY) && Print(Canonical(PROTO_KEY)) != Stable(PROTO_KEY)
  {
    ProtoKeyIsNotPlain();
    IndexKeysAreNotPlain();
    hide Valid, Plain, Print, Canonical, Stable;
    PrintersAgreeExactly(INDEX_KEYS);
    PrintersAgreeExactly(PROTO_KEY);
  }

  // In particular where no key is an array index or "__proto__".
  ghost predicate OrdinaryKeys(v: Json)
    decreases v
  {
    match v
    case Arr(items) => forall i :: 0 <= i < |items| ==> OrdinaryKeys(items[i])
    case Obj(fields) =>
      forall i :: 0 <= i < |fields| ==>
        fields[i].key != PROTO && !IsIndex(fields[i].key) && OrdinaryKeys(fields[i].value)
    case _ => true
  }

  lemma {:induction false} OrdinaryIsPlain(v: Json)
    requires OrdinaryKeys(v)
    ensures Plain(v)
    decreases v
  {
    match v
    case Arr(items) =>
      forall i | 0 <= i < |items| ensures Plain(items[i]) {
        OrdinaryIsPlain(items[i]);
      }
    case Obj(fields) =>
      forall i | 0 <= i < |fields| ensures Plain(fields[i].value) {
        OrdinaryIsPlain(fields[i].value);
      }
    case _ =>
  }

  lemma OrdinaryKeysAgree(v: Json)
    requires Valid(v) && OrdinaryKeys(v)
    ensures Print(Canonical(v)) == Stable(v)
  {
    OrdinaryIsPlain(v);
    PrintersAgreeExactly(v);
  }
}
