/** The key-sorting printer of the idempotency interceptor: it reads back, and it tells two bodies
    apart exactly when they differ by more than the order of their keys. */
module StableJson {
  import opened Common
  import opened Json

  // ------------------------------------------------------------------ key order

  // The order of JavaScript's default sort: by code unit.
  predicate Less(a: Text, b: Text)
    decreases |a|
  {
    b != [] && (a == [] || a[0] < b[0] || (a[0] == b[0] && Less(a[1..], b[1..])))
  }

  lemma {:induction false} LessIsTotal(a: Text, b: Text)
    ensures Less(a, b) || a == b || Less(b, a)
    ensures Less(a, b) ==> a != b && !Less(b, a)
    decreases |a|
  {
    if a != [] && b != [] && a[0] == b[0] {
      LessIsTotal(a[1..], b[1..]);
      assert a == [a[0]] + a[1..] && b == [b[0]] + b[1..];
    }
  }

  lemma {:induction false} LessIsTransitive(a: Text, b: Text, c: Text)
    requires Less(a, b) && Less(b, c)
    ensures Less(a, c)
    decreases |a|
  {
    if a != [] && a[0] == b[0] == c[0] {
      LessIsTransitive(a[1..], b[1..], c[1..]);
    }
  }

  ghost predicate Ascending(keys: seq<Text>) {
    forall i, j :: 0 <= i < j < |keys| ==> Less(keys[i], keys[j])
  }

  function InsertKey(k: Text, keys: seq<Text>): (r: seq<Text>)
    ensures |r| == |keys| + 1 && forall x :: x in r <==> x == k || x in keys
  {
    if keys == [] || !Less(keys[0], k) then [k] + keys else [keys[0]] + InsertKey(k, keys[1..])
  }

  function SortKeys(keys: seq<Text>): (r: seq<Text>)
    ensures |r| == |keys| && forall x :: x in r <==> x in keys
  {
    if keys == [] then [] else
      assert forall x :: x in keys <==> x == keys[0] || x in keys[1..];
      InsertKey(keys[0], SortKeys(keys[1..]))
  }

  lemma {:induction false} InsertKeepsAscending(k: Text, keys: seq<Text>)
    requires Ascending(keys) && k !in keys
    ensures Ascending(InsertKey(k, keys))
  {
    if keys != [] {
      LessIsTotal(keys[0], k);
      if Less(keys[0], k) {
        InsertKeepsAscending(k, keys[1..]);
        assert forall x :: x in InsertKey(k, keys[1..]) ==> Less(keys[0], x);
      } else {
        forall x | x in keys[1..] ensures Less(k, x) {
          LessIsTransitive(k, keys[0], x);
        }
      }
    }
  }

  lemma {:induction false} SortedAscending(keys: seq<Text>)
    requires Distinct(keys)
    ensures Ascending(SortKeys(keys)) && Distinct(SortKeys(keys))
  {
    if keys != [] {
      SortedAscending(keys[1..]);
      assert keys[0] !in keys[1..];
      InsertKeepsAscending(keys[0], SortKeys(keys[1..]));
    }
    AscendingDistinct(SortKeys(keys));
  }

  lemma AscendingDistinct(keys: seq<Text>)
    requires Ascending(keys)
    ensures Distinct(keys)
  {
    forall i, j | 0 <= i < j < |keys| ensures keys[i] != keys[j] {
      LessIsTotal(keys[i], keys[j]);
    }
  }

  lemma SomeMember(a: seq<Text>, b: seq<Text>)
    requires a != [] && forall k :: k in a ==> k in b
    ensures b != [] && a[0] in b
  {
    assert a[0] in a;
  }

  // An ascending list is determined by its members.
  lemma {:induction false} AscendingUnique(a: seq<Text>, b: seq<Text>)
    requires Ascending(a) && Ascending(b) && forall k :: k in a <==> k in b
    ensures a == b
  {
    if a != [] { SomeMember(a, b); }
    if b != [] { SomeMember(b, a); }
    if a != [] {
      LessIsTotal(a[0], b[0]);
      HeadIsLeast(a, b[0]);
      HeadIsLeast(b, a[0]);
      AscendingDistinct(a);
      AscendingDistinct(b);
      assert a == [a[0]] + a[1..] && b == [b[0]] + b[1..];
      forall k ensures k in a[1..] <==> k in b[1..] {
        assert k in a[1..] <==> k in a && k != a[0];
        assert k in b[1..] <==> k in b && k != b[0];
      }
      AscendingUnique(a[1..], b[1..]);
    }
  }

  lemma HeadIsLeast(keys: seq<Text>, k: Text)
    requires Ascending(keys) && k in keys
    ensures k == keys[0] || Less(keys[0], k)
  {}

  // ------------------------------------------------------------------ fields by key

  function IndexOf(fields: seq<Field>, k: Text): (i: nat)
    requires k in Keys(fields)
    ensures i < |fields| && fields[i].key == k
  {
    if fields[0].key == k then 0 else
      assert exists j :: 1 <= j < |fields| && fields[j].key == k by {
        var j :| 0 <= j < |fields| && Keys(fields)[j] == k;
      }
      assert k in Keys(fields[1..]) by {
        var j :| 1 <= j < |fields| && fields[j].key == k;
        assert Keys(fields[1..])[j - 1] == k;
      }
      1 + IndexOf(fields[1..], k)
  }

  predicate Covers(fields: seq<Field>, keys: seq<Text>) {
    forall k :: k in keys ==> k in Keys(fields)
  }

  // ------------------------------------------------------------------ the printer

  function Join(texts: seq<Text>): Text {
    if texts == [] then []
    else if |texts| == 1 then texts[0]
    else texts[0] + [COMMA] + Join(texts[1..])
  }

  function Stable(v: Json): Text
    decreases v
  {
    match v
    case Arr(items) =>
      [OPEN_BRACKET] + Join(seq(|items|, i requires 0 <= i < |items| => Stable(items[i]))) + [CLOSE_BRACKET]
    case Obj(fields) =>
      var keys := SortKeys(Keys(fields));
      [OPEN_BRACE]
      + Join(seq(|keys|, i requires 0 <= i < |keys| =>
               Quote(keys[i]) + [COLON] + Stable(fields[IndexOf(fields, keys[i])].value)))
      + [CLOSE_BRACE]
    case _ => Print(v)
  }

  // The same value with every object's keys in order.
  function Sorted(v: Json): Json
    decreases v
  {
    match v
    case Arr(items) => Arr(seq(|items|, i requires 0 <= i < |items| => Sorted(items[i])))
    case Obj(fields) => Obj(SortedFields(fields, SortKeys(Keys(fields))))
    case _ => v
  }

  function SortedFields(fields: seq<Field>, keys: seq<Text>): (r: seq<Field>)
    requires Covers(fields, keys)
    ensures |r| == |keys|
    ensures forall i :: 0 <= i < |keys| ==>
      r[i] == Field(keys[i], Sorted(fields[IndexOf(fields, keys[i])].value))
    ensures Keys(r) == keys
    decreases fields, |keys|
  {
    if keys == [] then [] else
      var n := |keys| - 1;
      CoversPrefix(fields, keys);
      SortedFields(fields, keys[..n]) + [Field(keys[n], Sorted(fields[IndexOf(fields, keys[n])].value))]
  }

  lemma CoversPrefix(fields: seq<Field>, keys: seq<Text>)
    requires keys != [] && Covers(fields, keys)
    ensures Covers(fields, keys[..|keys| - 1]) && keys[|keys| - 1] in Keys(fields)
  {
    assert keys[|keys| - 1] in keys && forall x :: x in keys[..|keys| - 1] ==> x in keys;
  }

  lemma {:induction false} JoinItems(items: seq<Json>)
    ensures PrintItems(items) == Join(seq(|items|, i requires 0 <= i < |items| => Print(items[i])))
  {
    if 2 <= |items| {
      JoinItems(items[1..]);
      var texts := seq(|items|, i requires 0 <= i < |items| => Print(items[i]));
      assert texts[1..] == seq(|items| - 1, i requires 0 <= i < |items| - 1 => Print(items[1..][i]));
    }
  }

  lemma {:induction false} JoinFields(fields: seq<Field>)
    ensures PrintFields(fields) == Join(seq(|fields|, i requires 0 <= i < |fields| => PrintField(fields[i])))
  {
    if 2 <= |fields| {
      JoinFields(fields[1..]);
      var texts := seq(|fields|, i requires 0 <= i < |fields| => PrintField(fields[i]));
      assert texts[1..] == seq(|fields| - 1, i requires 0 <= i < |fields| - 1 => PrintField(fields[1..][i]));
    }
  }

  // Sorting while printing is printing the sorted value.
  lemma {:induction false} StableIsPrintOfSorted(v: Json)
    ensures Stable(v) == Print(Sorted(v))
    decreases v
  {
    match v
    case Arr(items) =>
      var sorted := Sorted(v).items;
      JoinItems(sorted);
      forall i | 0 <= i < |items| ensures Stable(items[i]) == Print(sorted[i]) {
        StableIsPrintOfSorted(items[i]);
      }
      assert seq(|items|, i requires 0 <= i < |items| => Stable(items[i]))
          == seq(|sorted|, i requires 0 <= i < |sorted| => Print(sorted[i]));
    case Obj(fields) =>
      var keys, sorted := SortKeys(Keys(fields)), Sorted(v).fields;
      JoinFields(sorted);
      forall i | 0 <= i < |keys|
        ensures Quote(keys[i]) + [COLON] + Stable(fields[IndexOf(fields, keys[i])].value) == PrintField(sorted[i])
      {
        StableIsPrintOfSorted(fields[IndexOf(fields, keys[i])].value);
      }
      assert seq(|keys|, i requires 0 <= i < |keys| =>
                Quote(keys[i]) + [COLON] + Stable(fields[IndexOf(fields, keys[i])].value))
          == seq(|sorted|, i requires 0 <= i < |sorted| => PrintField(sorted[i]));
    case _ =>
  }

  lemma {:induction false} SortedValid(v: Json)
    requires Valid(v)
    ensures Valid(Sorted(v))
    decreases v
  {
    match v
    case Arr(items) =>
      forall i | 0 <= i < |items| ensures Valid(Sorted(items[i])) {
        SortedValid(items[i]);
      }
    case Obj(fields) =>
      var keys, sorted := SortKeys(Keys(fields)), Sorted(v).fields;
      SortedAscending(Keys(fields));
      forall i | 0 <= i < |keys| ensures Valid(sorted[i].value) {
        SortedValid(fields[IndexOf(fields, keys[i])].value);
      }
    case _ =>
  }

  // ------------------------------------------------------------------ what a value means

  // A value without the order of its keys.
  datatype Meaning =
    | MNull
    | MBool(b: bool)
    | MNum(token: Text)
    | MStr(s: Text)
    | MArr(items: seq<Meaning>)
    | MObj(fields: map<Text, Meaning>)

  function MeaningOf(v: Json): Meaning
    decreases v
  {
    match v
    case Null => MNull
    case Bool(b) => MBool(b)
    case Num(token) => MNum(token)
    case Str(s) => MStr(s)
    case Arr(items) => MArr(seq(|items|, i requires 0 <= i < |items| => MeaningOf(items[i])))
    case Obj(fields) => MObj(map k | k in Keys(fields) :: MeaningOf(fields[IndexOf(fields, k)].value))
  }

  lemma {:induction false} SortingKeepsMeaning(v: Json)
    requires Valid(v)
    ensures MeaningOf(Sorted(v)) == MeaningOf(v)
    decreases v
  {
    match v
    case Arr(items) =>
      forall i | 0 <= i < |items| ensures MeaningOf(Sorted(items[i])) == MeaningOf(items[i]) {
        SortingKeepsMeaning(items[i]);
      }
    case Obj(fields) =>
      forall i | 0 <= i < |fields| ensures MeaningOf(Sorted(fields[i].value)) == MeaningOf(fields[i].value) {
        SortingKeepsMeaning(fields[i].value);
      }
      SortingFieldsKeepsMeaning(fields);
    case _ =>
  }

  lemma SortingFieldsKeepsMeaning(fields: seq<Field>)
    requires Distinct(Keys(fields))
    requires forall i :: 0 <= i < |fields| ==> MeaningOf(Sorted(fields[i].value)) == MeaningOf(fields[i].value)
    ensures MeaningOf(Sorted(Obj(fields))) == MeaningOf(Obj(fields))
  {
    hide SortedFields, SortKeys, IndexOf, MeaningOf;
    var sorted := SortedFields(fields, SortKeys(Keys(fields)));
    forall k | k in Keys(fields)
      ensures k in Keys(sorted)
      ensures MeaningOf(sorted[IndexOf(sorted, k)].value) == MeaningOf(fields[IndexOf(fields, k)].value)
    {
      SortedValueAt(fields, k);
      assert MeaningOf(Sorted(fields[IndexOf(fields, k)].value)) == MeaningOf(fields[IndexOf(fields, k)].value);
    }
    SameFields(sorted, fields);
  }

  lemma SortedValueAt(fields: seq<Field>, k: Text)
    requires k in Keys(fields)
    ensures var sorted := SortedFields(fields, SortKeys(Keys(fields)));
      k in Keys(sorted) && sorted[IndexOf(sorted, k)].value == Sorted(fields[IndexOf(fields, k)].value)
  {
    hide Sorted, SortedFields, SortKeys, IndexOf;
    var keys := SortKeys(Keys(fields));
    var sorted := SortedFields(fields, keys);
    var i := IndexOf(sorted, k);
    assert Keys(sorted)[i] == keys[i] == k;
  }

  lemma SameFields(a: seq<Field>, b: seq<Field>)
    requires forall k :: k in Keys(a) <==> k in Keys(b)
    requires forall k :: k in Keys(b) ==> MeaningOf(a[IndexOf(a, k)].value) == MeaningOf(b[IndexOf(b, k)].value)
    ensures MeaningOf(Obj(a)) == MeaningOf(Obj(b))
  {
    hide IndexOf;
    assert MeaningOf(Obj(a)).fields == MeaningOf(Obj(b)).fields;
  }

  // Two values with one meaning sort to the same value.
  lemma {:induction false} MeaningDecides(v: Json, w: Json)
    requires Valid(v) && Valid(w) && MeaningOf(v) == MeaningOf(w)
    ensures Sorted(v) == Sorted(w)
    decreases v
  {
    match v
    case Arr(items) =>
      assert |MeaningOf(v).items| == |items| && |MeaningOf(w).items| == |w.items|;
      forall i | 0 <= i < |items| ensures Sorted(items[i]) == Sorted(w.items[i]) {
        assert MeaningOf(v).items[i] == MeaningOf(w).items[i];
        MeaningDecides(items[i], w.items[i]);
      }
    case Obj(fields) =>
      var a, b := SortKeys(Keys(fields)), SortKeys(Keys(w.fields));
      SortedAscending(Keys(fields));
      SortedAscending(Keys(w.fields));
      forall k ensures k in a <==> k in b {
        assert k in a <==> k in MeaningOf(v).fields;
        assert k in b <==> k in MeaningOf(w).fields;
      }
      AscendingUnique(a, b);
      forall i | 0 <= i < |a|
        ensures Sorted(fields[IndexOf(fields, a[i])].value) == Sorted(w.fields[IndexOf(w.fields, a[i])].value)
      {
        assert MeaningOf(v).fields[a[i]] == MeaningOf(w).fields[a[i]];
        MeaningDecides(fields[IndexOf(fields, a[i])].value, w.fields[IndexOf(w.fields, a[i])].value);
      }
      assert Sorted(v).fields == Sorted(w).fields;
    case _ =>
  }

  // ------------------------------------------------------------------ the printer is unambiguous

  // The printed text reads back to the value, up to the order of its keys.
  lemma StableReadsBack(v: Json)
    requires Valid(v)
    ensures Parse(Stable(v)) == Some(Sorted(v)) && MeaningOf(Sorted(v)) == MeaningOf(v)
  {
    StableIsPrintOfSorted(v);
    SortedValid(v);
    PrintThenParse(Sorted(v));
    SortingKeepsMeaning(v);
  }

  // Two bodies print alike exactly when they are equal up to the order of their keys.
  lemma StableTellsApart(v: Json, w: Json)
    requires Valid(v) && Valid(w)
    ensures Stable(v) == Stable(w) <==> MeaningOf(v) == MeaningOf(w)
  {
    StableReadsBack(v);
    StableReadsBack(w);
    StableIsPrintOfSorted(v);
    StableIsPrintOfSorted(w);
    if MeaningOf(v) == MeaningOf(w) {
      MeaningDecides(v, w);
    }
  }

  // ------------------------------------------------------------------ the order of the keys

  // One text comes before another: it is a proper prefix of it, or has the smaller unit where they
  // first differ.
  ghost predicate Before(a: Text, b: Text) {
    exists p :: BeforeAt(a, b, p)
  }

  ghost predicate BeforeAt(a: Text, b: Text, p: nat) {
    p <= |a| && p < |b| && a[..p] == b[..p] && (p == |a| || a[p] < b[p])
  }

  lemma {:induction false} LessIsBefore(a: Text, b: Text)
    ensures Less(a, b) <==> Before(a, b)
    decreases |a|
  {
    forall p: nat | BeforeAt(a, b, p) && 0 < p ensures a != [] && b != [] && a[0] == b[0] {
      assert a[..p][0] == b[..p][0];
    }
    if a != [] && b != [] && a[0] == b[0] {
      LessIsBefore(a[1..], b[1..]);
      if p: nat :| BeforeAt(a[1..], b[1..], p) {
        assert a[..p + 1] == [a[0]] + a[1..][..p] && b[..p + 1] == [b[0]] + b[1..][..p];
        assert BeforeAt(a, b, p + 1);
      }
      if p: nat :| BeforeAt(a, b, p) {
        assert p > 0;
        assert a[1..][..p - 1] == a[..p][1..] && b[1..][..p - 1] == b[..p][1..];
        assert BeforeAt(a[1..], b[1..], p - 1);
      }
    } else if Less(a, b) {
      assert BeforeAt(a, b, 0);
    }
  }

  // In every object of the value, however deep, the keys ascend.
  ghost predicate KeysAscend(v: Json)
    decreases v
  {
    match v
    case Arr(items) => forall i :: 0 <= i < |items| ==> KeysAscend(items[i])
    case Obj(fields) =>
      && (forall i, j :: 0 <= i < j < |fields| ==> Before(fields[i].key, fields[j].key))
      && (forall i :: 0 <= i < |fields| ==> KeysAscend(fields[i].value))
    case _ => true
  }

  lemma {:induction false} SortedKeysAscend(v: Json)
    requires Valid(v)
    ensures KeysAscend(Sorted(v))
    decreases v
  {
    hide Before, Less;
    match v
    case Arr(items) =>
      forall i | 0 <= i < |items| ensures KeysAscend(Sorted(items[i])) {
        SortedKeysAscend(items[i]);
      }
    case Obj(fields) =>
      var keys := SortKeys(Keys(fields));
      var sorted := SortedFields(fields, keys);
      SortedAscending(Keys(fields));
      forall i, j | 0 <= i < j < |sorted| ensures Before(sorted[i].key, sorted[j].key) {
        LessIsBefore(keys[i], keys[j]);
      }
      forall i | 0 <= i < |sorted| ensures KeysAscend(sorted[i].value) {
        assert keys[i] in keys;
        SortedKeysAscend(fields[IndexOf(fields, keys[i])].value);
      }
    case _ =>
  }

  // The printed text is that of a value whose keys ascend everywhere, by code unit.
  lemma StablePrintsKeysInOrder(v: Json)
    requires Valid(v)
    ensures Parse(Stable(v)).Some? && KeysAscend(Parse(Stable(v)).value)
  {
    StableReadsBack(v);
    SortedKeysAscend(v);
  }
}
