/**
 * JavaScript values as the client sees them after `JSON.parse` or in a form:
 * primitives and plain objects. An object is the list of its own properties in
 * insertion order, which is the order `for ... in` and the spread `{...o}` visit
 * them in as long as no key is an array index ("0", "17", ...); the engine would
 * visit such keys first, in numeric order. Numbers are integers.
 */
module Js {
  import opened Numerals
  import opened Seqs

  datatype JsValue =
    | Undefined
    | Null
    | Bool(b: bool)
    | Num(n: int)
    | Str(s: string)
    | Obj(props: seq<Prop>)

  datatype Prop = Prop(key: string, value: JsValue)

  /** What `if (v)` and `!v` test: everything but `undefined`, `null`, `false`, `0` and `''`. */
  predicate Truthy(v: JsValue) {
    match v
    case Undefined => false
    case Null => false
    case Bool(b) => b
    case Num(n) => n != 0
    case Str(s) => s != ""
    case Obj(_) => true
  }

  /** `String(n)` for an integer. */
  function NumberText(n: int): (s: string)
    ensures |s| >= 1
  {
    if n < 0 then "-" + NatToString(-n) else NatToString(n)
  }

  /** The property names of an object, in order. */
  function Keys(props: seq<Prop>): (ks: seq<string>)
    ensures |ks| == |props|
    ensures forall i :: 0 <= i < |props| ==> ks[i] == props[i].key
  {
    if props == [] then [] else [props[0].key] + Keys(props[1..])
  }

  /** No name occurs twice, as in every object a program can build. */
  predicate UniqueKeys(props: seq<Prop>) {
    forall i, j :: 0 <= i < j < |props| ==> props[i].key != props[j].key
  }

  /** `o[k]`: the value of the property named `k`, `undefined` when there is none. */
  function Get(props: seq<Prop>, k: string): (v: JsValue)
    ensures k !in Keys(props) ==> v == Undefined
    ensures UniqueKeys(props) ==> forall i :: 0 <= i < |props| && props[i].key == k ==> v == props[i].value
  {
    if props == [] then Undefined
    else if props[0].key == k then props[0].value
    else Get(props[1..], k)
  }

  /**
   * `o[k] = v`: an existing property keeps its place and takes the new value; a new one
   * goes at the end. Every other property is unchanged.
   */
  function Set(props: seq<Prop>, k: string, v: JsValue): (r: seq<Prop>)
    ensures Keys(r) == if k in Keys(props) then Keys(props) else Keys(props) + [k]
    ensures Get(r, k) == v
    ensures forall k' :: k' != k ==> Get(r, k') == Get(props, k')
  {
    if props == [] then [Prop(k, v)]
    else if props[0].key == k then [Prop(k, v)] + props[1..]
    else [props[0]] + Set(props[1..], k, v)
  }

  /** Setting a property never makes a name occur twice. */
  lemma {:induction false} SetUnique(props: seq<Prop>, k: string, v: JsValue)
    requires UniqueKeys(props)
    ensures UniqueKeys(Set(props, k, v))
  {
    if props != [] && props[0].key != k {
      var rest := Set(props[1..], k, v);
      SetUnique(props[1..], k, v);
      HeadNotInTail(props);
      assert props[0].key !in Keys(rest);
      ConsUnique(props[0], rest);
    }
  }

  /** In an object without repeated names the first name does not occur again. */
  lemma HeadNotInTail(props: seq<Prop>)
    requires props != [] && UniqueKeys(props)
    ensures props[0].key !in Keys(props[1..])
  {
    forall j | 0 <= j < |props| - 1 ensures Keys(props[1..])[j] != props[0].key {
      assert Keys(props[1..])[j] == props[j + 1].key;
    }
  }

  /** A property whose name the rest does not use can go in front. */
  lemma ConsUnique(p: Prop, rest: seq<Prop>)
    requires UniqueKeys(rest) && p.key !in Keys(rest)
    ensures UniqueKeys([p] + rest)
  {
    forall i, j | 0 <= i < j < |rest| + 1 ensures ([p] + rest)[i].key != ([p] + rest)[j].key {
      assert ([p] + rest)[j] == rest[j - 1];
      if i == 0 {
        assert Keys(rest)[j - 1] == rest[j - 1].key;
      } else {
        assert ([p] + rest)[i] == rest[i - 1];
      }
    }
  }

  /** Adding a name that is new puts it at the end. */
  lemma {:induction false} SetNew(props: seq<Prop>, k: string, v: JsValue)
    requires k !in Keys(props)
    ensures Set(props, k, v) == props + [Prop(k, v)]
  {
    if props != [] {
      var tail := props[1..];
      assert k !in Keys(tail) by {
        assert forall i :: 0 <= i < |tail| ==> Keys(tail)[i] == Keys(props)[i + 1];
      }
      SetNew(tail, k, v);
      ConsAppend(props, Prop(k, v));
    }
  }

  /** A second assignment to the same name overrides the first, in the same place. */
  lemma {:induction false} SetTwice(props: seq<Prop>, k: string, x: JsValue, y: JsValue)
    ensures Set(Set(props, k, x), k, y) == Set(props, k, y)
  {
    if props != [] && props[0].key != k {
      SetTwice(props[1..], k, x, y);
      assert Set(props, k, x) == [props[0]] + Set(props[1..], k, x);
      assert Set(props, k, x)[1..] == Set(props[1..], k, x);
    }
  }
}
