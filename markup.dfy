/** The part of the markup model that element listeners see: one element with a
    mutable name, an ordered attribute store with unique names, and a flag that
    asks the serializer for an explicit end tag. */
module Markup {

  /** A value that may be absent, where the Java code returns `null`. */
  datatype Option<T> = None | Some(value: T)

  /** One attribute: its name and its raw value, kept exactly as given
      (quote characters in the value are part of the value). */
  datatype Attribute = Attribute(name: string, value: string)

  /** Some attribute in `attrs` is called `n`. */
  predicate HasName(attrs: seq<Attribute>, n: string)
  {
    exists i :: 0 <= i < |attrs| && attrs[i].name == n
  }

  /** No two attributes of one element share a name. */
  predicate UniqueNames(attrs: seq<Attribute>)
  {
    forall i, j :: 0 <= i < j < |attrs| ==> attrs[i].name != attrs[j].name
  }

  /** The value stored under `n`, or None when the element has no such attribute. */
  function Lookup(attrs: seq<Attribute>, n: string): (r: Option<string>)
    ensures r.Some? <==> HasName(attrs, n)
    ensures r.Some? ==> exists i :: 0 <= i < |attrs| && attrs[i] == Attribute(n, r.value)
  {
    if attrs == [] then None
    else if attrs[0].name == n then Some(attrs[0].value)
    else
      var r := Lookup(attrs[1..], n);
      assert forall i :: 0 <= i < |attrs| - 1 ==> attrs[1..][i] == attrs[i + 1];
      r
  }

  /** With unique names, the attribute at position `i` is the one a lookup of its name
      finds. A corollary of Lookup's contract: the attribute Lookup reports under that
      name can only be the one at `i`. */
  lemma LookupAt(attrs: seq<Attribute>, i: nat)
    requires UniqueNames(attrs)
    requires i < |attrs|
    ensures Lookup(attrs, attrs[i].name) == Some(attrs[i].value)
  {
  }

  /** The attribute store after storing `v` under `n`: an existing attribute of that
      name keeps its position and takes the new value; otherwise the attribute is
      appended, so insertion order is kept. Every other attribute stays where it was. */
  function Put(attrs: seq<Attribute>, n: string, v: string): (r: seq<Attribute>)
    ensures !HasName(attrs, n) ==> r == attrs + [Attribute(n, v)]
    ensures HasName(attrs, n) ==> |r| == |attrs|
    ensures forall i :: 0 <= i < |attrs| ==> r[i].name == attrs[i].name
    ensures forall i :: 0 <= i < |attrs| && attrs[i].name != n ==> r[i] == attrs[i]
  {
    if attrs == [] then [Attribute(n, v)]
    else if attrs[0].name == n then [Attribute(n, v)] + attrs[1..]
    else
      var tail := attrs[1..];
      assert HasName(tail, n) <==> HasName(attrs, n) by {
        if HasName(tail, n) {
          var k :| 0 <= k < |tail| && tail[k].name == n;
          assert attrs[k + 1] == tail[k];
        }
      }
      [attrs[0]] + Put(tail, n, v)
  }

  /** Storing `v` under `n` makes a lookup of `n` find `v` and leaves the lookup of
      every other name as it was. */
  lemma {:induction false} PutLookup(attrs: seq<Attribute>, n: string, v: string, m: string)
    ensures Lookup(Put(attrs, n, v), m) == if m == n then Some(v) else Lookup(attrs, m)
  {
    if attrs != [] && attrs[0].name != n {
      PutLookup(attrs[1..], n, v, m);
      assert Put(attrs, n, v)[1..] == Put(attrs[1..], n, v);
    }
  }

  /** Storing an attribute keeps the names unique. A corollary of Put's contract:
      names keep their positions, and a new name is appended only when absent. */
  lemma PutUnique(attrs: seq<Attribute>, n: string, v: string)
    requires UniqueNames(attrs)
    ensures UniqueNames(Put(attrs, n, v))
  {
  }

  /** A markup element as a listener changes it in place. */
  class Element {
    var name: string
    var attributes: seq<Attribute>
    var close: bool
    /** Whether `RemoveAllAttributes` succeeds on this element. The library decides
        this; the model takes it as a property of the element that callers cannot
        change, so a listener is proved for either outcome. */
    var clearOk: bool

    /** The attribute store never holds two attributes of the same name. */
    ghost predicate Valid()
      reads this
    {
      UniqueNames(attributes)
    }

    constructor (name: string, clearOk: bool)
      ensures Valid()
      ensures this.name == name && attributes == [] && !close && this.clearOk == clearOk
    {
      this.name := name;
      attributes := [];
      close := false;
      this.clearOk := clearOk;
    }

    /** The value of attribute `n`, or None (Java `null`) when there is none. */
    method GetAttributeValue(n: string) returns (v: Option<string>)
      requires Valid()
      ensures v.Some? <==> HasName(attributes, n)
      ensures v.Some? ==> exists i :: 0 <= i < |attributes| && attributes[i] == Attribute(n, v.value)
      ensures v == Lookup(attributes, n)
    {
      v := Lookup(attributes, n);
    }

    method SetName(n: string)
      modifies this`name
      ensures name == n
    {
      name := n;
    }

    /** Drops every attribute and reports whether it did. A caller may rely only on
        this: the report is the element's `clearOk`, it never adds an attribute, on
        success the store is empty, and the store stays well formed either way. */
    method RemoveAllAttributes() returns (removed: bool)
      requires Valid()
      modifies this`attributes
      ensures Valid()
      ensures removed == clearOk
      ensures forall a :: a in attributes ==> a in old(attributes)
      ensures removed ==> attributes == []
    {
      if clearOk {
        attributes := [];
      }
      removed := clearOk;
    }

    method PutAttribute(n: string, v: string)
      requires Valid()
      modifies this`attributes
      ensures Valid()
      ensures attributes == Put(old(attributes), n, v)
    {
      PutUnique(attributes, n, v);
      attributes := Put(attributes, n, v);
    }

    /** Marks whether the serializer must emit an explicit end tag. */
    method SetClose(c: bool)
      modifies this`close
      ensures close == c
    {
      close := c;
    }
  }
}
