/** The shared state region: the one namespace object that every worker
    process reads and writes by attribute name (a multiprocessing manager's
    Namespace in the source, created in pippi/__init__.py:151-152). MIDI
    controller values, parameter namespaces and the console's command queue
    all live in this one attribute space. */
module Shared {
  import opened Python

  /** `getattr(ns, name)` on a snapshot of the attributes, with None standing
      for the AttributeError it raises on a missing attribute. */
  function GetAttr(attrs: map<string, Value>, name: string): Option<Value> {
    if name in attrs then Some(attrs[name]) else None
  }

  /** `getattr` after `setattr`: the attribute written reads back the value
      written, and every other attribute reads as before. */
  lemma GetAttrAfterSetAttr(attrs: map<string, Value>, name: string, v: Value, other: string)
    ensures GetAttr(attrs[name := v], name) == Some(v)
    ensures other != name ==> GetAttr(attrs[name := v], other) == GetAttr(attrs, other)
  {
  }

  /** `getattr` after `del`: the deleted attribute raises AttributeError, and
      every other attribute reads as before. */
  lemma GetAttrAfterDelAttr(attrs: map<string, Value>, name: string, other: string)
    ensures GetAttr(attrs - {name}, name) == None
    ensures other != name ==> GetAttr(attrs - {name}, other) == GetAttr(attrs, other)
  {
  }

  /** `hasattr` is `getattr` not raising. */
  lemma HasIsGetAttr(ns: Namespace, name: string)
    ensures ns.Has(name) <==> GetAttr(ns.attrs, name).Some?
  {
  }

  class Namespace {
    /** Attribute name to the value last stored under it. */
    var attrs: map<string, Value>

    constructor ()
      ensures attrs == map[]
    {
      attrs := map[];
    }

    /** `hasattr(ns, name)` */
    predicate Has(name: string)
      reads this
    {
      name in attrs
    }

    /** `setattr(ns, name, v)`: overwrites one attribute and nothing else. */
    method SetAttr(name: string, v: Value)
      modifies this
      ensures attrs == old(attrs)[name := v]
    {
      attrs := attrs[name := v];
    }

    /** `del ns.name`, which raises AttributeError when there is no such attribute. */
    method DelAttr(name: string) returns (err: Option<PyError>)
      modifies this
      ensures old(name in attrs) ==> err == None && attrs == old(attrs) - {name}
      ensures old(name !in attrs) ==> err == Some(AttributeError) && attrs == old(attrs)
    {
      if name in attrs {
        attrs := attrs - {name};
        err := None;
      } else {
        err := Some(AttributeError);
      }
    }
  }
}
