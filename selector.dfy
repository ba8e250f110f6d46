/**
 The selector builder `serviceSelector`: given an optional list of subscription
 keys it yields a projection of a store context. Without keys the projection is
 the identity; with keys it folds them, left to right, into a fresh object that
 maps each stringified key to the context's value at that key.

 The source curries the builder (`keys => context => selection`); here both
 arguments are passed at once.
 */
module Selector {

  datatype Option<T> = None | Some(value: T)

  /** A store context: the own properties of a plain object, by name. */
  type Context<V> = map<string, V>

  /** A subscription key as the caller may pass it in the `unknown[]` list. */
  datatype Key =
    | StrKey(s: string)
    | IntKey(i: int)
    | BoolKey(b: bool)
    | NullKey
    | UndefinedKey

  /**
   What the projection returns: the context itself (no key list) or a fresh
   object of picked fields, where `None` is a property holding `undefined`.
   */
  datatype Selection<V> = Whole(context: Context<V>) | Picked(fields: map<string, Option<V>>)

  function Digit(d: nat): (c: char)
    requires d < 10
    ensures '0' <= c <= '9'
    ensures c == '0' <==> d == 0
  {
    (48 + d) as char
  }

  /**
   Exact decimal text of a natural number: JavaScript's number-to-string for
   integers up to 2^53 (beyond that it rounds the digits).
   */
  function NatName(n: nat): (s: string)
    ensures |s| >= 1 && (n >= 10 ==> |s| >= 2)
    ensures forall i :: 0 <= i < |s| ==> '0' <= s[i] <= '9'
    ensures s[0] == '0' <==> n == 0
    decreases n
  {
    if n < 10 then [Digit(n)] else NatName(n / 10) + [Digit(n % 10)]
  }

  function IntName(i: int): (s: string)
    ensures |s| >= 1
    ensures s[0] == '-' <==> i < 0
  {
    if i < 0 then "-" + NatName(-i) else NatName(i)
  }

  /** The property name that both `${key}` and the lookup `context[key]` use. */
  function KeyName(k: Key): string {
    match k
    case StrKey(s) => s
    case IntKey(i) => IntName(i)
    case BoolKey(b) => if b then "true" else "false"
    case NullKey => "null"
    case UndefinedKey => "undefined"
  }

  /** Reading `context[name]`: `None` stands for `undefined`. */
  function Lookup<V>(context: Context<V>, name: string): Option<V> {
    if name in context then Some(context[name]) else None
  }

  function KeyNames(keys: seq<Key>): set<string> {
    set i | 0 <= i < |keys| :: KeyName(keys[i])
  }

  /**
   The `reduce` step by step: each key adds (or overwrites) one property of the
   accumulator; properties of the accumulator that no key names are kept.
   */
  function Pick<V>(context: Context<V>, keys: seq<Key>, acc: map<string, Option<V>>): (r: map<string, Option<V>>)
    ensures r.Keys == acc.Keys + KeyNames(keys)
    ensures forall name :: name in r ==>
              r[name] == if name in KeyNames(keys) then Lookup(context, name) else acc[name]
    decreases |keys|
  {
    if keys == [] then
      acc
    else
      var name := KeyName(keys[0]);
      KeyNamesCons(keys);
      Pick(context, keys[1..], acc[name := Lookup(context, name)])
  }

  lemma KeyNamesCons(keys: seq<Key>)
    requires keys != []
    ensures KeyNames(keys) == {KeyName(keys[0])} + KeyNames(keys[1..])
  {
    forall x | x in KeyNames(keys) ensures x in {KeyName(keys[0])} + KeyNames(keys[1..]) {
      var i :| 0 <= i < |keys| && KeyName(keys[i]) == x;
      if i > 0 { assert keys[i] == keys[1..][i - 1]; }
    }
    forall x | x in KeyNames(keys[1..]) ensures x in KeyNames(keys) {
      var i :| 0 <= i < |keys[1..]| && KeyName(keys[1..][i]) == x;
      assert keys[1..][i] == keys[i + 1];
    }
  }

  /**
   `serviceSelector(keys)(context)`: the whole context when no key list is
   given; otherwise exactly one property per stringified key, holding the
   context's value there (or `undefined` when the context lacks it).
   */
  function ServiceSelector<V>(keys: Option<seq<Key>>, context: Context<V>): (r: Selection<V>)
    ensures keys.None? ==> r == Whole(context)
    ensures keys.Some? ==> r.Picked? && r.fields.Keys == KeyNames(keys.value)
    ensures keys.Some? ==> forall name :: name in r.fields ==>
              (name in context ==> r.fields[name] == Some(context[name])) &&
              (name !in context ==> r.fields[name] == None)
  {
    match keys
    case None => Whole(context)
    case Some(ks) => Picked(Pick(context, ks, map[]))
  }

  /**
   The selection depends only on the listed keys: two contexts that agree on
   every listed name give the same selection, whatever else they hold.
   */
  lemma SelectionDependsOnlyOnKeys<V>(keys: seq<Key>, c1: Context<V>, c2: Context<V>)
    requires forall name :: name in KeyNames(keys) ==> Lookup(c1, name) == Lookup(c2, name)
    ensures ServiceSelector(Some(keys), c1) == ServiceSelector(Some(keys), c2)
  {
    var f1 := ServiceSelector(Some(keys), c1).fields;
    var f2 := ServiceSelector(Some(keys), c2).fields;
    forall name | name in f1 ensures f1[name] == f2[name] {
      assert Lookup(c1, name) == Lookup(c2, name);
    }
  }

  /** Distinct natural numbers have distinct decimal texts. */
  lemma {:induction false} NatNameInjective(n: nat, m: nat)
    requires NatName(n) == NatName(m)
    ensures n == m
    decreases n
  {
    if n >= 10 && m >= 10 {
      var sn, sm := NatName(n), NatName(m);
      assert sn[|sn| - 1] == Digit(n % 10) && sm[|sm| - 1] == Digit(m % 10);
      assert NatName(n / 10) == sn[..|sn| - 1] == sm[..|sm| - 1] == NatName(m / 10);
      NatNameInjective(n / 10, m / 10);
    } else if n < 10 && m < 10 {
      assert Digit(n) == NatName(n)[0] == NatName(m)[0] == Digit(m);
    }
  }

  lemma IntNameInjective(i: int, j: int)
    requires IntName(i) == IntName(j)
    ensures i == j
  {
    if i < 0 && j < 0 {
      assert NatName(-i) == IntName(i)[1..] == IntName(j)[1..] == NatName(-j);
      NatNameInjective(-i, -j);
    } else if i >= 0 && j >= 0 {
      NatNameInjective(i, j);
    }
  }

  /**
   Two integer keys, two string keys, or two keys among booleans, `null` and
   `undefined`, name the same property only when they are the same key.
   */
  lemma KeyNameSameKindInjective(a: Key, b: Key)
    requires a.IntKey? == b.IntKey? && a.StrKey? == b.StrKey?
    requires KeyName(a) == KeyName(b)
    ensures a == b
  {
    if a.IntKey? {
      IntNameInjective(a.i, b.i);
    }
  }

  /** Across kinds names can meet: `1` and `"1"`, `true` and `"true"` pick one property. */
  lemma KeyNamesMeetAcrossKinds()
    ensures KeyName(IntKey(1)) == KeyName(StrKey("1"))
    ensures KeyName(BoolKey(true)) == KeyName(StrKey("true"))
  {
    assert NatName(1) == "1";
  }
}
