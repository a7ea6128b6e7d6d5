/** canonicalJSON's key sorting (connector-sdk/src/models/schema.ts:35-52), with JavaScript's own
    rules for property order: array-index keys come first in numeric order, other keys in
    insertion order, and assigning "__proto__" sets the prototype instead of a property. */
module CanonicalJson {
  import opened Basics
  import opened TextOrder
  import opened Json
  import Decimal

  const PROTO: JsString := Js("__proto__")

  const MAX_ARRAY_INDEX := 0xFFFF_FFFE

  predicate AllDigits(k: JsString) { forall i :: 0 <= i < |k| ==> 48 <= k[i] <= 57 }

  function NumberOf(k: JsString): nat
    requires AllDigits(k)
  {
    if k == [] then 0 else NumberOf(k[..|k| - 1]) * 10 + (k[|k| - 1] - 48)
  }

  /** An array index is the canonical decimal text of a number up to 2^32 - 2. */
  predicate IsArrayIndex(k: JsString) {
    k != [] && AllDigits(k) && NumberOf(k) <= MAX_ARRAY_INDEX && Js(Decimal.Digits(NumberOf(k))) == k
  }

  /** The order in which an object filled in lexicographic key order enumerates its keys. */
  predicate KeyLess(a: JsString, b: JsString) {
    if IsArrayIndex(a) then IsArrayIndex(b) ==> NumberOf(a) < NumberOf(b)
    else !IsArrayIndex(b) && LexLess(a, b)
  }

  lemma KeyIrreflexive(a: JsString)
    ensures !KeyLess(a, a)
  {
    LexIrreflexive(a);
  }

  lemma KeyTotal(a: JsString, b: JsString)
    ensures KeyLess(a, b) || KeyLess(b, a) || a == b
  {
    LexTotal(a, b);
  }

  lemma KeyTransitive(a: JsString, b: JsString, c: JsString)
    requires KeyLess(a, b) && KeyLess(b, c)
    ensures KeyLess(a, c)
  {
    if !IsArrayIndex(a) { LexTransitive(a, b, c); }
  }

  lemma KeyAsymmetric(a: JsString, b: JsString)
    requires KeyLess(a, b)
    ensures !KeyLess(b, a)
  {
    if KeyLess(b, a) { KeyTransitive(a, b, a); KeyIrreflexive(a); }
  }

  predicate Sorted(fs: seq<Field>) {
    forall i, j :: 0 <= i < j < |fs| ==> KeyLess(fs[i].key, fs[j].key)
  }

  // ---------------------------------------------------------------- the canonical tree

  /** Insertion of a new key into an ordered property list. */
  function Insert(fs: seq<Field>, f: Field): seq<Field> {
    if fs == [] then [f]
    else if KeyLess(f.key, fs[0].key) then [f] + fs
    else [fs[0]] + Insert(fs[1..], f)
  }

  function Canon(v: Json): Json
    decreases v
  {
    match v
    case Arr(items) => Arr(seq(|items|, i requires 0 <= i < |items| => Canon(items[i])))
    case Obj(fields) => Obj(CanonFields(fields))
    case _ => v
  }

  function CanonFields(fs: seq<Field>): seq<Field>
    decreases fs
  {
    if fs == [] then [] else
    var f, rest := fs[0], CanonFields(fs[1..]);
    assert f.value < f;
    if f.key == PROTO then rest else Insert(rest, Field(f.key, Canon(f.value)))
  }

  lemma {:induction false} InsertMembers(fs: seq<Field>, f: Field)
    ensures forall g :: g in Insert(fs, f) <==> g == f || g in fs
    decreases |fs|
  {
    if fs == [] {
    } else {
      InsertMembers(fs[1..], f);
      assert fs == [fs[0]] + fs[1..];
    }
  }

  lemma {:induction false} InsertSorted(fs: seq<Field>, f: Field)
    requires Sorted(fs) && forall g :: g in fs ==> g.key != f.key
    ensures Sorted(Insert(fs, f))
    decreases |fs|
  {
    if fs == [] {
    } else {
      if KeyLess(f.key, fs[0].key) {
        forall j | 0 <= j < |fs| ensures KeyLess(f.key, fs[j].key) {
          if j > 0 { KeyTransitive(f.key, fs[0].key, fs[j].key); }
        }
      } else {
        InsertSorted(fs[1..], f);
        InsertMembers(fs[1..], f);
        assert fs[0] in fs;
        KeyTotal(f.key, fs[0].key);
        var t := Insert(fs[1..], f);
        forall j | 0 <= j < |t| ensures KeyLess(fs[0].key, t[j].key) {
          assert t[j] in t;
          if t[j] in fs[1..] { var i :| 0 <= i < |fs[1..]| && fs[1..][i] == t[j]; }
        }
      }
    }
  }

  /** g is the canonical form of some property of fs. */
  ghost predicate IsCanonOf(fs: seq<Field>, g: Field) {
    exists i :: 0 <= i < |fs| && fs[i].key != PROTO && g == Field(fs[i].key, Canon(fs[i].value))
  }

  lemma {:induction false} CanonFieldsFacts(fs: seq<Field>)
    requires DistinctKeys(fs)
    ensures Sorted(CanonFields(fs))
    ensures forall g :: g in CanonFields(fs) <==> IsCanonOf(fs, g)
    decreases |fs|
  {
    if fs == [] {
    } else {
      var f, tail := fs[0], fs[1..];
      CanonFieldsFacts(tail);
      var rest, c := CanonFields(tail), Field(f.key, Canon(f.value));
      forall g ensures IsCanonOf(fs, g) <==> IsCanonOf(tail, g) || (f.key != PROTO && g == c) {
        if IsCanonOf(tail, g) {
          var i :| 0 <= i < |tail| && tail[i].key != PROTO && g == Field(tail[i].key, Canon(tail[i].value));
          assert fs[i + 1] == tail[i];
        }
        if i :| 0 < i < |fs| && fs[i].key != PROTO && g == Field(fs[i].key, Canon(fs[i].value)) {
          assert tail[i - 1] == fs[i];
        }
      }
      InsertMembers(rest, c);
      forall g | g in rest ensures g.key != f.key { assert IsCanonOf(tail, g); }
      InsertSorted(rest, c);
    }
  }

  // ---------------------------------------------------------------- what a JSON value means

  /** A JSON value regardless of key order: objects are maps. */
  datatype Value =
    | VNull
    | VBool(b: bool)
    | VNum(n: real)
    | VStr(s: JsString)
    | VArr(items: seq<Value>)
    | VObj(fields: map<JsString, Value>)

  function Meaning(v: Json): Value
    decreases v
  {
    match v
    case Null => VNull
    case Bool(b) => VBool(b)
    case Num(n) => VNum(n)
    case Str(s) => VStr(s)
    case Arr(items) => VArr(seq(|items|, i requires 0 <= i < |items| => Meaning(items[i])))
    case Obj(fields) => VObj(FieldMap(fields))
  }

  function FieldMap(fs: seq<Field>): map<JsString, Value>
    decreases fs
  {
    if fs == [] then map[] else
    var f := fs[|fs| - 1];
    assert f.value < f;
    FieldMap(fs[..|fs| - 1])[f.key := Meaning(f.value)]
  }

  /** The value with every "__proto__" property removed, at every depth. */
  function WithoutProto(v: Value): Value
    decreases v
  {
    match v
    case VArr(items) => VArr(seq(|items|, i requires 0 <= i < |items| => WithoutProto(items[i])))
    case VObj(fields) => VObj(map k | k in fields && k != PROTO :: WithoutProto(fields[k]))
    case _ => v
  }

  /** No "__proto__" property at any depth. */
  ghost predicate NoProto(v: Value)
    decreases v
  {
    match v
    case VArr(items) => forall i :: 0 <= i < |items| ==> NoProto(items[i])
    case VObj(fields) => PROTO !in fields && forall k :: k in fields ==> NoProto(fields[k])
    case _ => true
  }

  lemma LastKeyIsNew(front: seq<Field>, last: Field)
    requires DistinctKeys(front + [last])
    ensures forall f :: f in front ==> f.key != last.key
  {
    var fs := front + [last];
    forall f | f in front ensures f.key != last.key {
      var i :| 0 <= i < |front| && front[i] == f;
      assert fs[i] == f && fs[|front|] == last;
    }
  }

  lemma MoreMembers(front: seq<Field>, last: Field, m: map<JsString, Value>, m': map<JsString, Value>)
    requires forall k :: k in m ==> exists f :: f in front && f.key == k
    requires m'.Keys == m.Keys + {last.key}
    ensures forall k :: k in m' ==> exists f :: f in front + [last] && f.key == k
  {
    forall k | k in m' ensures exists f :: f in front + [last] && f.key == k {
      if k == last.key {
        assert last in front + [last];
      } else {
        var f :| f in front && f.key == k;
        assert f in front + [last];
      }
    }
  }

  lemma {:induction false} FieldMapFacts(fs: seq<Field>)
    requires DistinctKeys(fs)
    ensures forall f :: f in fs ==> f.key in FieldMap(fs) && FieldMap(fs)[f.key] == Meaning(f.value)
    ensures forall k :: k in FieldMap(fs) ==> exists f :: f in fs && f.key == k
    decreases |fs|
  {
    if fs == [] {
    } else {
      var n := |fs| - 1;
      var front, last := fs[..n], fs[n];
      assert fs == front + [last];
      FieldMapFacts(front);
      LastKeyIsNew(front, last);
      MoreMembers(front, last, FieldMap(front), FieldMap(fs));
    }
  }

  lemma SortedIsDistinct(fs: seq<Field>)
    requires Sorted(fs)
    ensures DistinctKeys(fs)
  {
    forall i, j | 0 <= i < j < |fs| ensures fs[i].key != fs[j].key {
      KeyIrreflexive(fs[i].key);
    }
  }

  /** Sorting the keys of an object keeps exactly the meaning of its other properties. */
  lemma {:induction false} CanonMeaning(v: Json)
    requires WellFormed(v)
    ensures Meaning(Canon(v)) == WithoutProto(Meaning(v))
    decreases v
  {
    match v {
      case Arr(items) =>
        forall i | 0 <= i < |items| ensures Meaning(Canon(items[i])) == WithoutProto(Meaning(items[i])) {
          CanonMeaning(items[i]);
        }
      case Obj(fs) =>
        forall i | 0 <= i < |fs| ensures Meaning(Canon(fs[i].value)) == WithoutProto(Meaning(fs[i].value)) {
          assert fs[i].value < fs[i];
          CanonMeaning(fs[i].value);
        }
        CanonFieldsMeaning(fs);
      case _ =>
    }
  }

  lemma CanonFieldsMeaning(fs: seq<Field>)
    requires DistinctKeys(fs)
    requires forall i :: 0 <= i < |fs| ==> Meaning(Canon(fs[i].value)) == WithoutProto(Meaning(fs[i].value))
    ensures FieldMap(CanonFields(fs)) == map k | k in FieldMap(fs) && k != PROTO :: WithoutProto(FieldMap(fs)[k])
  {
    CanonFieldsFacts(fs);
    SortedIsDistinct(CanonFields(fs));
    FieldMapFacts(CanonFields(fs));
    FieldMapFacts(fs);
    MapsAgree(fs, CanonFields(fs), FieldMap(fs), FieldMap(CanonFields(fs)));
  }

  lemma MapsAgree(fs: seq<Field>, cs: seq<Field>, m: map<JsString, Value>, cm: map<JsString, Value>)
    requires forall g :: g in cs <==> IsCanonOf(fs, g)
    requires forall f :: f in fs ==> f.key in m && m[f.key] == Meaning(f.value)
    requires forall k :: k in m ==> exists f :: f in fs && f.key == k
    requires forall f :: f in cs ==> f.key in cm && cm[f.key] == Meaning(f.value)
    requires forall k :: k in cm ==> exists f :: f in cs && f.key == k
    requires forall i :: 0 <= i < |fs| ==> Meaning(Canon(fs[i].value)) == WithoutProto(Meaning(fs[i].value))
    ensures cm == map k | k in m && k != PROTO :: WithoutProto(m[k])
  {
    forall k | k in cm ensures k in m && k != PROTO && cm[k] == WithoutProto(m[k]) {
      var g :| g in cs && g.key == k;
      assert IsCanonOf(fs, g);
      var i :| 0 <= i < |fs| && fs[i].key != PROTO && g == Field(fs[i].key, Canon(fs[i].value));
      assert fs[i] in fs;
    }
    forall k | k in m && k != PROTO ensures k in cm {
      var f :| f in fs && f.key == k;
      var i :| 0 <= i < |fs| && fs[i] == f;
      var g := Field(k, Canon(f.value));
      assert IsCanonOf(fs, g);
      assert g in cs;
    }
  }

  lemma {:induction false} NoProtoMeansUnchanged(v: Value)
    ensures WithoutProto(v) == v <==> NoProto(v)
    decreases v
  {
    match v {
      case VArr(items) =>
        forall i | 0 <= i < |items| ensures WithoutProto(items[i]) == items[i] <==> NoProto(items[i]) {
          NoProtoMeansUnchanged(items[i]);
        }
        assert WithoutProto(v) == v <==> forall i :: 0 <= i < |items| ==> WithoutProto(items[i]) == items[i] by {
          var w := WithoutProto(v).items;
          assert forall i :: 0 <= i < |items| ==> w[i] == WithoutProto(items[i]);
          if forall i :: 0 <= i < |items| ==> WithoutProto(items[i]) == items[i] { assert w == items; }
        }
      case VObj(fields) =>
        forall k | k in fields ensures WithoutProto(fields[k]) == fields[k] <==> NoProto(fields[k]) {
          NoProtoMeansUnchanged(fields[k]);
        }
        var w := WithoutProto(v).fields;
        assert forall k :: k in fields && k != PROTO ==> k in w && w[k] == WithoutProto(fields[k]);
        assert PROTO !in w;
        if NoProto(v) { assert w == fields; }
      case _ =>
    }
  }

  /** canonicalJSON keeps the meaning of a value exactly when no object in it has a property
      named "__proto__". */
  lemma MeaningPreservedIff(v: Json)
    requires WellFormed(v)
    ensures Meaning(Canon(v)) == Meaning(v) <==> NoProto(Meaning(v))
  {
    CanonMeaning(v);
    NoProtoMeansUnchanged(Meaning(v));
  }

  /** {"__proto__": {}} and {} have the same canonical form. */
  lemma ProtoKeyIsLost()
    ensures var v := Obj([Field(Js("__proto__"), Obj([]))]);
      WellFormed(v) && Canon(v) == Obj([]) && Meaning(Canon(v)) != Meaning(v)
  {
    var v := Obj([Field(PROTO, Obj([]))]);
    assert WellFormed(Obj([]));
    assert CanonFields(v.fields[1..]) == [];
    FieldMapFacts(v.fields);
    assert v.fields[0] in v.fields;
    assert PROTO in FieldMap(v.fields) && FieldMap([]) == map[];
  }

  // ---------------------------------------------------------------- canonical trees are unique

  ghost predicate IsCanonical(v: Json)
    decreases v
  {
    match v
    case Arr(items) => forall i :: 0 <= i < |items| ==> IsCanonical(items[i])
    case Obj(fields) =>
      && Sorted(fields)
      && forall i :: 0 <= i < |fields| ==>
           fields[i].key != PROTO && (assert fields[i].value < fields[i]; IsCanonical(fields[i].value))
    case _ => true
  }

  lemma {:induction false} CanonIsCanonical(v: Json)
    requires WellFormed(v)
    ensures IsCanonical(Canon(v))
    decreases v
  {
    match v {
      case Arr(items) =>
        forall i | 0 <= i < |items| ensures IsCanonical(Canon(items[i])) { CanonIsCanonical(items[i]); }
      case Obj(fs) =>
        forall i | 0 <= i < |fs| ensures IsCanonical(Canon(fs[i].value)) {
          assert fs[i].value < fs[i];
          CanonIsCanonical(fs[i].value);
        }
        CanonFieldsFacts(fs);
        var cs := CanonFields(fs);
        forall j | 0 <= j < |cs| ensures cs[j].key != PROTO && IsCanonical(cs[j].value) {
          assert cs[j] in cs;
          assert IsCanonOf(fs, cs[j]);
        }
      case _ =>
    }
  }

  lemma KeyLessIsAsymmetric()
    ensures forall a, b :: KeyLess(a, b) ==> !KeyLess(b, a)
  {
    forall a, b | KeyLess(a, b) ensures !KeyLess(b, a) { KeyAsymmetric(a, b); }
  }

  function KeysOf(fs: seq<Field>): (ks: seq<JsString>)
    ensures |ks| == |fs| && forall i :: 0 <= i < |fs| ==> ks[i] == fs[i].key
  {
    seq(|fs|, i requires 0 <= i < |fs| => fs[i].key)
  }

  lemma {:induction false} CanonicalIsUnique(c: Json, d: Json)
    requires IsCanonical(c) && IsCanonical(d) && Meaning(c) == Meaning(d)
    ensures c == d
    decreases c
  {
    match c {
      case Arr(items) =>
        var ms := Meaning(c).items;
        forall i | 0 <= i < |items| ensures items[i] == d.items[i] {
          assert ms[i] == Meaning(items[i]) && Meaning(d).items[i] == Meaning(d.items[i]);
          CanonicalIsUnique(items[i], d.items[i]);
        }
        assert items == d.items;
      case Obj(fs) =>
        SameMapSameKeys(fs, d.fields);
        forall i | 0 <= i < |fs| ensures fs[i] == d.fields[i] {
          assert fs[i].value < fs[i];
          CanonicalIsUnique(fs[i].value, d.fields[i].value);
        }
        assert fs == d.fields;
      case _ =>
    }
  }

  lemma KeysOfFieldMap(fs: seq<Field>)
    requires DistinctKeys(fs)
    ensures forall k :: k in KeysOf(fs) <==> k in FieldMap(fs)
  {
    FieldMapFacts(fs);
    forall k ensures k in KeysOf(fs) <==> k in FieldMap(fs) {
      if k in KeysOf(fs) { var i :| 0 <= i < |fs| && KeysOf(fs)[i] == k; assert fs[i] in fs; }
      if k in FieldMap(fs) {
        var f :| f in fs && f.key == k;
        var i :| 0 <= i < |fs| && fs[i] == f;
        assert KeysOf(fs)[i] == k;
      }
    }
  }

  lemma SameMapSameKeys(fs: seq<Field>, gs: seq<Field>)
    requires Sorted(fs) && Sorted(gs) && FieldMap(fs) == FieldMap(gs)
    ensures |fs| == |gs|
    ensures forall i :: 0 <= i < |fs| ==> fs[i].key == gs[i].key && Meaning(fs[i].value) == Meaning(gs[i].value)
  {
    SortedIsDistinct(fs);
    SortedIsDistinct(gs);
    KeysOfFieldMap(fs);
    KeysOfFieldMap(gs);
    KeyLessIsAsymmetric();
    SortedUnique(KeyLess, KeysOf(fs), KeysOf(gs));
    FieldMapFacts(fs);
    FieldMapFacts(gs);
    forall i | 0 <= i < |fs| ensures fs[i].key == gs[i].key && Meaning(fs[i].value) == Meaning(gs[i].value) {
      assert KeysOf(fs)[i] == KeysOf(gs)[i];
      assert fs[i] in fs && gs[i] in gs;
    }
  }

  /** Two values have the same canonical tree exactly when they are the same JSON value, whatever
      the order of their keys, once "__proto__" properties are set aside. */
  lemma CanonicalEqualityIff(a: Json, b: Json)
    requires WellFormed(a) && WellFormed(b)
    ensures Canon(a) == Canon(b) <==> WithoutProto(Meaning(a)) == WithoutProto(Meaning(b))
  {
    CanonMeaning(a);
    CanonMeaning(b);
    CanonIsCanonical(a);
    CanonIsCanonical(b);
    if WithoutProto(Meaning(a)) == WithoutProto(Meaning(b)) { CanonicalIsUnique(Canon(a), Canon(b)); }
  }

  lemma {:induction false} CanonicalIsWellFormed(v: Json)
    requires IsCanonical(v)
    ensures WellFormed(v)
    decreases v
  {
    match v {
      case Arr(items) => forall i | 0 <= i < |items| ensures WellFormed(items[i]) { CanonicalIsWellFormed(items[i]); }
      case Obj(fs) =>
        SortedIsDistinct(fs);
        forall i | 0 <= i < |fs| ensures WellFormed(fs[i].value) {
          assert fs[i].value < fs[i];
          CanonicalIsWellFormed(fs[i].value);
        }
      case _ =>
    }
  }

  lemma {:induction false} CanonicalHasNoProto(v: Json)
    requires IsCanonical(v)
    ensures NoProto(Meaning(v))
    decreases v
  {
    match v {
      case Arr(items) =>
        forall i | 0 <= i < |items| ensures NoProto(Meaning(items[i])) { CanonicalHasNoProto(items[i]); }
      case Obj(fs) =>
        SortedIsDistinct(fs);
        FieldMapFacts(fs);
        forall k | k in FieldMap(fs) ensures k != PROTO && NoProto(FieldMap(fs)[k]) {
          var f :| f in fs && f.key == k;
          var i :| 0 <= i < |fs| && fs[i] == f;
          assert fs[i].value < fs[i];
          CanonicalHasNoProto(fs[i].value);
        }
      case _ =>
    }
  }

  /** Sorting a sorted tree changes nothing. */
  lemma CanonIsIdempotent(v: Json)
    requires WellFormed(v)
    ensures Canon(Canon(v)) == Canon(v)
  {
    var c := Canon(v);
    CanonIsCanonical(v);
    CanonicalIsWellFormed(c);
    CanonIsCanonical(c);
    CanonicalHasNoProto(c);
    MeaningPreservedIff(c);
    CanonicalIsUnique(Canon(c), c);
  }

  lemma {:induction false} NumberOfDigits(n: nat)
    ensures AllDigits(Js(Decimal.Digits(n))) && NumberOf(Js(Decimal.Digits(n))) == n
  {
    var k := Js(Decimal.Digits(n));
    if n < 10 {
      assert k[..0] == [] && |k| == 1;
    } else {
      NumberOfDigits(n / 10);
      var q := Js(Decimal.Digits(n / 10));
      assert k == q + [48 + n % 10];
      assert k[..|k| - 1] == q;
    }
  }

  /** The array indices are the plain decimal texts of the numbers up to 2^32 - 2, and nothing else. */
  lemma ArrayIndexIff(k: JsString)
    ensures IsArrayIndex(k) <==> exists n: nat :: n <= 4294967294 && k == Js(Decimal.Digits(n))
  {
    if n: nat :| n <= 4294967294 && k == Js(Decimal.Digits(n)) { NumberOfDigits(n); Decimal.WidthMonotone(0, n); }
    if IsArrayIndex(k) { assert NumberOf(k) <= 4294967294 && k == Js(Decimal.Digits(NumberOf(k))); }
  }

  // ---------------------------------------------------------------- when the order is dictionary order

  predicate DictSorted(fs: seq<Field>) {
    forall i, j :: 0 <= i < j < |fs| ==> LexLess(fs[i].key, fs[j].key)
  }

  /** Two index keys whose text sorts as their numbers, or an index key whose text sorts before a
      key that is none. */
  predicate PairInOrder(a: JsString, b: JsString) {
    IsArrayIndex(a) ==>
      if IsArrayIndex(b) then NumberOf(a) < NumberOf(b) ==> Decimal.SortsAsNumber(NumberOf(a), NumberOf(b))
      else LexLess(a, b)
  }

  /** Every two keys of an object, "__proto__" set aside, are in order. */
  predicate FieldsInOrder(fs: seq<Field>) {
    forall i, j :: 0 <= i < |fs| && 0 <= j < |fs| && fs[i].key != PROTO && fs[j].key != PROTO ==>
      PairInOrder(fs[i].key, fs[j].key)
  }

  lemma PairInOrderMeans(a: JsString, b: JsString)
    requires KeyLess(a, b)
    ensures LexLess(a, b) <==> PairInOrder(a, b)
  {
    if IsArrayIndex(a) && IsArrayIndex(b) { Decimal.TextOrderIsTimeOrderIff(NumberOf(a), NumberOf(b)); }
  }

  lemma NotLessIsInOrder(a: JsString, b: JsString)
    requires !KeyLess(a, b)
    ensures PairInOrder(a, b)
  {
  }

  /** In a sorted list, the smaller key comes first. */
  lemma SortedPositions(fs: seq<Field>, g: Field, h: Field) returns (p: nat, q: nat)
    requires Sorted(fs) && g in fs && h in fs && KeyLess(g.key, h.key)
    ensures p < q < |fs| && fs[p] == g && fs[q] == h
  {
    p :| p < |fs| && fs[p] == g;
    q :| q < |fs| && fs[q] == h;
    KeyIrreflexive(g.key);
    KeyAsymmetric(g.key, h.key);
  }

  /** One object comes out in dictionary order if and only if every two of its keys are in order. */
  lemma DictSortedIff(fs: seq<Field>)
    requires DistinctKeys(fs)
    ensures DictSorted(CanonFields(fs)) <==> FieldsInOrder(fs)
  {
    var c := CanonFields(fs);
    CanonFieldsFacts(fs);
    if FieldsInOrder(fs) {
      forall p, q | 0 <= p < q < |c| ensures LexLess(c[p].key, c[q].key) {
        assert c[p] in c && c[q] in c && IsCanonOf(fs, c[p]) && IsCanonOf(fs, c[q]);
        PairInOrderMeans(c[p].key, c[q].key);
      }
    }
    if DictSorted(c) {
      forall i, j | 0 <= i < |fs| && 0 <= j < |fs| && fs[i].key != PROTO && fs[j].key != PROTO
        ensures PairInOrder(fs[i].key, fs[j].key)
      {
        SortedPairInOrder(fs, c, i, j);
      }
    }
  }

  lemma SortedPairInOrder(fs: seq<Field>, c: seq<Field>, i: nat, j: nat)
    requires Sorted(c) && DictSorted(c) && forall g :: g in c <==> IsCanonOf(fs, g)
    requires i < |fs| && j < |fs| && fs[i].key != PROTO && fs[j].key != PROTO
    ensures PairInOrder(fs[i].key, fs[j].key)
  {
    var g, h := Field(fs[i].key, Canon(fs[i].value)), Field(fs[j].key, Canon(fs[j].value));
    assert IsCanonOf(fs, g) && IsCanonOf(fs, h);
    if KeyLess(g.key, h.key) {
      var p, q := SortedPositions(c, g, h);
      PairInOrderMeans(g.key, h.key);
    } else {
      NotLessIsInOrder(g.key, h.key);
    }
  }

  /** Every object of the tree lists its keys in dictionary order. */
  ghost predicate DictOrdered(v: Json)
    decreases v
  {
    match v
    case Arr(items) => forall i :: 0 <= i < |items| ==> DictOrdered(items[i])
    case Obj(fs) =>
      && DictSorted(fs)
      && forall i :: 0 <= i < |fs| ==> (assert fs[i].value < fs[i]; DictOrdered(fs[i].value))
    case _ => true
  }

  /** Every object of the tree that is not below a "__proto__" property has its keys in order. */
  ghost predicate KeysInOrder(v: Json)
    decreases v
  {
    match v
    case Arr(items) => forall i :: 0 <= i < |items| ==> KeysInOrder(items[i])
    case Obj(fs) =>
      && FieldsInOrder(fs)
      && forall i :: 0 <= i < |fs| && fs[i].key != PROTO ==> (assert fs[i].value < fs[i]; KeysInOrder(fs[i].value))
    case _ => true
  }

  /** x is the canonical form of the value of some surviving property. */
  ghost predicate IsValueOf(fs: seq<Field>, i: int, x: Json) {
    0 <= i < |fs| && fs[i].key != PROTO && x == Canon(fs[i].value)
  }

  lemma ValueComesFrom(fs: seq<Field>, p: nat) returns (i: nat)
    requires DistinctKeys(fs) && p < |CanonFields(fs)|
    ensures IsValueOf(fs, i, CanonFields(fs)[p].value)
  {
    var c := CanonFields(fs);
    CanonFieldsFacts(fs);
    assert c[p] in c && IsCanonOf(fs, c[p]);
    i :| i < |fs| && fs[i].key != PROTO && c[p] == Field(fs[i].key, Canon(fs[i].value));
  }

  lemma ValueGoesTo(fs: seq<Field>, i: nat) returns (p: nat)
    requires DistinctKeys(fs) && i < |fs| && fs[i].key != PROTO
    ensures p < |CanonFields(fs)| && CanonFields(fs)[p].value == Canon(fs[i].value)
  {
    var c, g := CanonFields(fs), Field(fs[i].key, Canon(fs[i].value));
    CanonFieldsFacts(fs);
    assert IsCanonOf(fs, g) && g in c;
    p :| p < |c| && c[p] == g;
  }

  ghost predicate ValuesDictOrdered(fs: seq<Field>) {
    forall p :: 0 <= p < |fs| ==> DictOrdered(fs[p].value)
  }

  ghost predicate ValuesInOrder(fs: seq<Field>) {
    forall i :: 0 <= i < |fs| && fs[i].key != PROTO ==> KeysInOrder(fs[i].value)
  }

  lemma ValuesOrderedIff(fs: seq<Field>)
    requires DistinctKeys(fs)
    requires forall i :: 0 <= i < |fs| ==> (DictOrdered(Canon(fs[i].value)) <==> KeysInOrder(fs[i].value))
    ensures ValuesDictOrdered(CanonFields(fs)) <==> ValuesInOrder(fs)
  {
    if ValuesInOrder(fs) {
      forall p | 0 <= p < |CanonFields(fs)| ensures DictOrdered(CanonFields(fs)[p].value) {
        var i := ValueComesFrom(fs, p);
      }
    }
    if ValuesDictOrdered(CanonFields(fs)) {
      forall i | 0 <= i < |fs| && fs[i].key != PROTO ensures KeysInOrder(fs[i].value) {
        var p := ValueGoesTo(fs, i);
      }
    }
  }

  /** canonicalJSON lists every object's keys in dictionary order if and only if, in every object
      whose properties survive, index keys sort alike as text and as numbers and no other key sorts
      before an index key. */
  lemma {:induction false} DictionaryOrderIff(v: Json)
    requires WellFormed(v)
    ensures DictOrdered(Canon(v)) <==> KeysInOrder(v)
    decreases v
  {
    match v {
      case Arr(items) =>
        forall i | 0 <= i < |items| ensures DictOrdered(Canon(items[i])) <==> KeysInOrder(items[i]) {
          DictionaryOrderIff(items[i]);
        }
        assert forall i :: 0 <= i < |items| ==> Canon(v).items[i] == Canon(items[i]);
      case Obj(fs) =>
        forall i | 0 <= i < |fs| ensures DictOrdered(Canon(fs[i].value)) <==> KeysInOrder(fs[i].value) {
          assert fs[i].value < fs[i];
          DictionaryOrderIff(fs[i].value);
        }
        DictSortedIff(fs);
        ValuesOrderedIff(fs);
      case _ =>
    }
  }

  /** Keys "9" and "10" are not in order: "9" comes out first, though "10" sorts first as text. */
  lemma IndexKeysAreOutOfOrder(x: Json, y: Json)
    ensures Canon(Obj([Field(Js("10"), x), Field(Js("9"), y)])).fields ==
        [Field(Js("9"), Canon(y)), Field(Js("10"), Canon(x))]
    ensures LexLess(Js("10"), Js("9"))
  {
    var ten, nine := Js("10"), Js("9");
    assert Decimal.Digits(9) == "9" && Decimal.Digits(10) == "10";
    assert NumberOf(nine) == 9 by { assert nine[..0] == []; }
    assert NumberOf(ten) == 10 by { assert ten[..1][..0] == [] && ten[..1] == [49]; }
    assert |PROTO| == 9;
    var fs := [Field(ten, x), Field(nine, y)];
    assert fs[1..] == [Field(nine, y)] && fs[1..][1..] == [];
    var one := [Field(nine, Canon(y))];
    assert CanonFields(fs[1..]) == one;
    assert one[1..] == [];
    assert IsArrayIndex(ten) && IsArrayIndex(nine);
    assert !KeyLess(ten, nine);
    assert Insert(one[1..], Field(ten, Canon(x))) == [Field(ten, Canon(x))];
    assert CanonFields(fs) == Insert(one, Field(ten, Canon(x)));
  }

  // ---------------------------------------------------------------- the JavaScript that computes it

  /** Assigning a property: "__proto__" sets the prototype, an existing key is overwritten in
      place, a new array-index key goes to its numeric position, any other key to the end. */
  function JsSet(obj: seq<Field>, k: JsString, v: Json): seq<Field> {
    if k == PROTO then obj
    else if exists i :: 0 <= i < |obj| && obj[i].key == k then Overwrite(obj, k, v)
    else if IsArrayIndex(k) then PlaceIndex(obj, k, v)
    else obj + [Field(k, v)]
  }

  function Overwrite(obj: seq<Field>, k: JsString, v: Json): seq<Field> {
    seq(|obj|, i requires 0 <= i < |obj| => if obj[i].key == k then Field(k, v) else obj[i])
  }

  function PlaceIndex(obj: seq<Field>, k: JsString, v: Json): seq<Field>
    requires IsArrayIndex(k)
  {
    if obj != [] && IsArrayIndex(obj[0].key) && NumberOf(obj[0].key) < NumberOf(k)
    then [obj[0]] + PlaceIndex(obj[1..], k, v)
    else [Field(k, v)] + obj
  }

  /** Array.prototype.sort on the property list's keys. */
  function LexSort(fs: seq<Field>): seq<Field> {
    if fs == [] then [] else LexInsert(LexSort(fs[1..]), fs[0])
  }

  function LexInsert(fs: seq<Field>, f: Field): seq<Field> {
    if fs == [] then [f]
    else if LexLess(f.key, fs[0].key) then [f] + fs
    else [fs[0]] + LexInsert(fs[1..], f)
  }

  predicate LexSorted(fs: seq<Field>) {
    forall i, j :: 0 <= i < j < |fs| ==> LexLess(fs[i].key, fs[j].key)
  }

  lemma {:induction false} LexInsertFacts(fs: seq<Field>, f: Field)
    requires LexSorted(fs) && forall g :: g in fs ==> g.key != f.key
    ensures LexSorted(LexInsert(fs, f)) && forall g :: g in LexInsert(fs, f) <==> g == f || g in fs
    decreases |fs|
  {
    if fs == [] {
    } else {
      assert fs == [fs[0]] + fs[1..];
      if LexLess(f.key, fs[0].key) {
        forall j | 0 < j < |fs| ensures LexLess(f.key, fs[j].key) { LexTransitive(f.key, fs[0].key, fs[j].key); }
      } else {
        LexInsertFacts(fs[1..], f);
        LexTotal(f.key, fs[0].key);
        var t := LexInsert(fs[1..], f);
        forall j | 0 <= j < |t| ensures LexLess(fs[0].key, t[j].key) {
          assert t[j] in t;
          if t[j] in fs[1..] { var i :| 0 <= i < |fs[1..]| && fs[1..][i] == t[j]; }
        }
      }
    }
  }

  lemma {:induction false} LexSortFacts(fs: seq<Field>)
    requires DistinctKeys(fs)
    ensures LexSorted(LexSort(fs)) && forall g :: g in LexSort(fs) <==> g in fs
    decreases |fs|
  {
    if fs == [] {
    } else {
      LexSortFacts(fs[1..]);
      assert fs == [fs[0]] + fs[1..];
      forall g | g in LexSort(fs[1..]) ensures g.key != fs[0].key {
        var i :| 0 <= i < |fs[1..]| && fs[1..][i] == g;
      }
      LexInsertFacts(LexSort(fs[1..]), fs[0]);
    }
  }

  lemma {:induction false} PlaceIndexIsInsert(obj: seq<Field>, k: JsString, v: Json)
    requires IsArrayIndex(k) && Sorted(obj) && forall g :: g in obj ==> g.key != k
    ensures PlaceIndex(obj, k, v) == Insert(obj, Field(k, v))
    decreases |obj|
  {
    if obj == [] {
    } else {
      assert obj[0] in obj;
      KeyTotal(k, obj[0].key);
      if KeyLess(k, obj[0].key) { KeyAsymmetric(k, obj[0].key); }
      PlaceIndexIsInsert(obj[1..], k, v);
    }
  }

  lemma {:induction false} AppendIsInsert(obj: seq<Field>, f: Field)
    requires forall g :: g in obj ==> !KeyLess(f.key, g.key)
    ensures obj + [f] == Insert(obj, f)
    decreases |obj|
  {
    if obj == [] {
    } else {
      assert obj[0] in obj;
      AppendIsInsert(obj[1..], f);
      assert obj + [f] == [obj[0]] + (obj[1..] + [f]);
    }
  }

  /** Assigning the keys in dictionary order, each assignment is an ordered insertion. */
  lemma JsSetIsInsert(obj: seq<Field>, k: JsString, v: Json)
    requires Sorted(obj) && k != PROTO && forall g :: g in obj ==> LexLess(g.key, k)
    ensures JsSet(obj, k, v) == Insert(obj, Field(k, v))
  {
    forall g | g in obj ensures g.key != k { LexIrreflexive(k); }
    assert forall i :: 0 <= i < |obj| ==> obj[i] in obj;
    if IsArrayIndex(k) {
      PlaceIndexIsInsert(obj, k, v);
    } else {
      forall g | g in obj ensures !KeyLess(k, g.key) { LexAsymmetric(g.key, k); }
      AppendIsInsert(obj, Field(k, v));
    }
  }

  /** Ordered property lists with the same members are equal. */
  lemma SortedFieldsUnique(fs: seq<Field>, gs: seq<Field>)
    requires Sorted(fs) && Sorted(gs) && forall f :: f in fs <==> f in gs
    ensures fs == gs
  {
    var less := (f: Field, g: Field) => KeyLess(f.key, g.key);
    KeyLessIsAsymmetric();
    assert forall f, g :: less(f, g) ==> !less(g, f);
    SortedUnique(less, fs, gs);
  }

  /** The object under construction is the canonical form of the properties set so far. */
  ghost predicate IsBuiltFrom(obj: seq<Field>, done: seq<Field>) {
    Sorted(obj) && forall g :: g in obj <==> IsCanonOf(done, g)
  }

  lemma LoopStep(order: seq<Field>, i: nat, obj: seq<Field>)
    requires i < |order| && LexSorted(order) && IsBuiltFrom(obj, order[..i])
    ensures IsBuiltFrom(JsSet(obj, order[i].key, Canon(order[i].value)), order[..i + 1])
  {
    var f := order[i];
    var c := Field(f.key, Canon(f.value));
    forall g | g in obj ensures LexLess(g.key, f.key) {
      assert IsCanonOf(order[..i], g);
      var k :| 0 <= k < |order[..i]| && order[..i][k].key != PROTO &&
          g == Field(order[..i][k].key, Canon(order[..i][k].value));
      assert order[k] == order[..i][k];
    }
    forall g ensures IsCanonOf(order[..i + 1], g) <==> IsCanonOf(order[..i], g) || (f.key != PROTO && g == c) {
      var a, b := order[..i], order[..i + 1];
      if k :| 0 <= k < |a| && a[k].key != PROTO && g == Field(a[k].key, Canon(a[k].value)) { assert b[k] == a[k]; }
      if f.key != PROTO && g == c { assert b[i] == f; }
      if k :| 0 <= k < |b| && k < i && b[k].key != PROTO && g == Field(b[k].key, Canon(b[k].value)) {
        assert a[k] == b[k];
      }
    }
    if f.key != PROTO {
      JsSetIsInsert(obj, f.key, c.value);
      InsertMembers(obj, c);
      forall g | g in obj ensures g.key != f.key { LexIrreflexive(f.key); }
      InsertSorted(obj, c);
    }
  }

  lemma LoopResult(fields: seq<Field>, order: seq<Field>, obj: seq<Field>)
    requires DistinctKeys(fields) && (forall g :: g in order <==> g in fields)
    requires IsBuiltFrom(obj, order)
    ensures obj == CanonFields(fields)
  {
    CanonFieldsFacts(fields);
    forall g ensures IsCanonOf(order, g) <==> IsCanonOf(fields, g) {
      if i :| 0 <= i < |order| && order[i].key != PROTO && g == Field(order[i].key, Canon(order[i].value)) {
        assert order[i] in fields;
        var j :| 0 <= j < |fields| && fields[j] == order[i];
      }
      if i :| 0 <= i < |fields| && fields[i].key != PROTO && g == Field(fields[i].key, Canon(fields[i].value)) {
        assert fields[i] in order;
        var j :| 0 <= j < |order| && order[j] == fields[i];
      }
    }
    SortedFieldsUnique(obj, CanonFields(fields));
  }

  /** sortKeys as written: recurse into arrays, and rebuild objects key by key in sorted order. */
  method SortKeys(v: Json) returns (r: Json)
    requires WellFormed(v)
    ensures r == Canon(v)
    decreases v
  {
    match v {
      case Arr(items) =>
        var out := SortItems(items);
        return Arr(out);
      case Obj(fields) =>
        var sorted := SortFields(fields);
        return Obj(sorted);
      case _ => return v;
    }
  }

  method SortItems(items: seq<Json>) returns (out: seq<Json>)
    requires forall i :: 0 <= i < |items| ==> WellFormed(items[i])
    ensures out == seq(|items|, i requires 0 <= i < |items| => Canon(items[i]))
    decreases items
  {
    out := [];
    for i := 0 to |items|
      invariant |out| == i && forall k :: 0 <= k < i ==> out[k] == Canon(items[k])
    {
      var x := SortKeys(items[i]);
      out := out + [x];
    }
  }

  /** The i-th property in sorted order is one of the object's own. */
  lemma OwnProperty(fields: seq<Field>, order: seq<Field>, i: nat) returns (j: nat)
    requires i < |order| && forall g :: g in order <==> g in fields
    requires forall k :: 0 <= k < |fields| ==> WellFormed(fields[k].value)
    ensures j < |fields| && fields[j] == order[i] && WellFormed(order[i].value)
  {
    assert order[i] in order;
    j :| 0 <= j < |fields| && fields[j] == order[i];
  }

  method SortFields(fields: seq<Field>) returns (sorted: seq<Field>)
    requires DistinctKeys(fields) && forall i :: 0 <= i < |fields| ==> WellFormed(fields[i].value)
    ensures sorted == CanonFields(fields)
    decreases fields
  {
    var order := LexSort(fields);
    LexSortFacts(fields);
    sorted := [];
    for i := 0 to |order|
      invariant IsBuiltFrom(sorted, order[..i])
    {
      var f := order[i];
      ghost var j := OwnProperty(fields, order, i);
      assert fields[j].value < fields[j];
      LoopStep(order, i, sorted);
      var child := SortKeys(f.value);
      sorted := JsSet(sorted, f.key, child);
    }
    assert order[..|order|] == order;
    LoopResult(fields, order, sorted);
  }
}
