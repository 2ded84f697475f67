/** The namespaced parameter store (`ParamManager`, pippi/__init__.py:97-147).
    A namespace is an attribute of the shared region whose value is a dict
    from parameter name to value; the store remembers which namespace its
    unqualified calls target. */
module Params {
  import opened Python
  import opened Shared

  /** The namespace a new store targets. */
  const DefaultNamespace: string := "global"

  /** `getAll` on a snapshot: what the namespace attribute holds, or an empty
      dict when there is no such attribute. */
  function Lookup(attrs: map<string, Value>, name: string): Value {
    match GetAttr(attrs, name)
    case Some(v) => v
    case None => Dict(map[])
  }

  /** `set` on a snapshot: read the namespace's dict, replace one entry, write
      the whole dict back. A namespace attribute holding anything but a dict
      does not take item assignment, so the call raises TypeError. */
  function Stored(attrs: map<string, Value>, name: string, param: string, value: Value)
    : Result<map<string, Value>>
  {
    match Lookup(attrs, name)
    case Dict(entries) => Ok(attrs[name := Dict(entries[param := value])])
    case _ => Raised(TypeError)
  }

  /** What `get` returns together with the shared region it leaves behind. */
  datatype Fetch = Fetch(value: Value, attrs: map<string, Value>)

  /** `get` (without `throttle`) on a snapshot: a present, non-None entry is
      returned as it is; otherwise the default is installed through `set` and
      returned. A namespace attribute holding anything but a dict has no
      `.get`, so the call raises AttributeError. */
  function Fetched(attrs: map<string, Value>, name: string, param: string, default: Value)
    : Result<Fetch>
  {
    match Lookup(attrs, name)
    case Dict(entries) =>
      if param in entries && entries[param] != NoneValue then Ok(Fetch(entries[param], attrs))
      else
        (match Stored(attrs, name, param, default)
         case Ok(after) => Ok(Fetch(default, after))
         case Raised(e) => Raised(e))
    case _ => Raised(AttributeError)
  }

  // ---------------------------------------------------------------------
  // Properties of the snapshot semantics
  // ---------------------------------------------------------------------

  /** A namespace never written reads as the empty dict. */
  lemma GetAllUnwritten(attrs: map<string, Value>, name: string)
    requires name !in attrs
    ensures Lookup(attrs, name) == Dict(map[])
  {
  }

  /** `set` followed by `getAll`: the previous mapping with only `param`
      replaced, or an empty one extended by it; every other attribute of the
      shared region (other namespaces included) is left as it was. */
  lemma SetThenGetAll(attrs: map<string, Value>, name: string, param: string, value: Value)
    requires Lookup(attrs, name).Dict?
    ensures Stored(attrs, name, param, value).Ok?
    ensures var after := Stored(attrs, name, param, value).value;
            && Lookup(after, name) == Dict(Lookup(attrs, name).entries[param := value])
            && after.Keys == attrs.Keys + {name}
            && forall other :: other in attrs && other != name ==> after[other] == attrs[other]
  {
  }

  /** `set` on a namespace attribute that is not a dict raises TypeError. */
  lemma SetOnNonDict(attrs: map<string, Value>, name: string, param: string, value: Value)
    requires !Lookup(attrs, name).Dict?
    ensures Stored(attrs, name, param, value) == Raised(TypeError)
    ensures name in attrs
  {
  }

  /** Last write wins: a second `set` of the same parameter overrides the first. */
  lemma SetTwiceLastWins(attrs: map<string, Value>, name: string, param: string, v1: Value, v2: Value)
    requires Lookup(attrs, name).Dict?
    ensures Stored(attrs, name, param, v1).Ok?
    ensures Stored(Stored(attrs, name, param, v1).value, name, param, v2) == Stored(attrs, name, param, v2)
  {
    var entries := Lookup(attrs, name).entries;
    var once := attrs[name := Dict(entries[param := v1])];
    assert Lookup(once, name) == Dict(entries[param := v1]);
    assert entries[param := v1][param := v2] == entries[param := v2];
    assert once[name := Dict(entries[param := v2])] == attrs[name := Dict(entries[param := v2])];
  }

  /** Writes to different namespaces commute. */
  lemma SetsToDistinctNamespacesCommute(attrs: map<string, Value>, n1: string, n2: string,
                                        p1: string, p2: string, v1: Value, v2: Value)
    requires n1 != n2 && Lookup(attrs, n1).Dict? && Lookup(attrs, n2).Dict?
    ensures Stored(attrs, n1, p1, v1).Ok? && Stored(attrs, n2, p2, v2).Ok?
    ensures Stored(Stored(attrs, n1, p1, v1).value, n2, p2, v2)
            == Stored(Stored(attrs, n2, p2, v2).value, n1, p1, v1)
  {
    var d1 := Dict(Lookup(attrs, n1).entries[p1 := v1]);
    var d2 := Dict(Lookup(attrs, n2).entries[p2 := v2]);
    var a1 := attrs[n1 := d1];
    var a2 := attrs[n2 := d2];
    assert Lookup(a1, n2) == Lookup(attrs, n2);
    assert Lookup(a2, n1) == Lookup(attrs, n1);
    assert a1[n2 := d2] == a2[n1 := d1];
  }

  /** Lazy initialisation: when `param` is absent or None, `get` returns the
      default and leaves it installed, with the rest of its namespace and
      every other attribute unchanged. */
  lemma GetInstallsDefault(attrs: map<string, Value>, name: string, param: string, default: Value)
    requires Lookup(attrs, name).Dict?
    requires var entries := Lookup(attrs, name).entries;
             param !in entries || entries[param] == NoneValue
    ensures Fetched(attrs, name, param, default).Ok?
    ensures var f := Fetched(attrs, name, param, default).value;
            && f.value == default
            && Lookup(f.attrs, name) == Dict(Lookup(attrs, name).entries[param := default])
            && f.attrs.Keys == attrs.Keys + {name}
            && forall other :: other in attrs && other != name ==> f.attrs[other] == attrs[other]
  {
    SetThenGetAll(attrs, name, param, default);
  }

  /** A present, non-None value is returned with no write at all. */
  lemma GetPresentNoWrite(attrs: map<string, Value>, name: string, param: string, default: Value)
    requires Lookup(attrs, name).Dict?
    requires var entries := Lookup(attrs, name).entries;
             param in entries && entries[param] != NoneValue
    ensures Fetched(attrs, name, param, default) == Ok(Fetch(Lookup(attrs, name).entries[param], attrs))
  {
  }

  /** Once `get` has installed a default other than None, later calls return
      it whatever default they pass, and write nothing more. */
  lemma GetAfterGet(attrs: map<string, Value>, name: string, param: string, d1: Value, d2: Value)
    requires Lookup(attrs, name).Dict?
    requires Fetched(attrs, name, param, d1).Ok? && Fetched(attrs, name, param, d1).value.value != NoneValue
    ensures var f := Fetched(attrs, name, param, d1).value;
            Fetched(f.attrs, name, param, d2) == Ok(Fetch(f.value, f.attrs))
  {
    var entries := Lookup(attrs, name).entries;
    if !(param in entries && entries[param] != NoneValue) {
      SetThenGetAll(attrs, name, param, d1);
    }
  }

  /** `set(p, v)` then `get(p, d)` returns `v` when `v` is not None. */
  lemma SetThenGet(attrs: map<string, Value>, name: string, param: string, value: Value, default: Value)
    requires Lookup(attrs, name).Dict? && value != NoneValue
    ensures Stored(attrs, name, param, value).Ok?
    ensures var after := Stored(attrs, name, param, value).value;
            Fetched(after, name, param, default) == Ok(Fetch(value, after))
  {
    SetThenGetAll(attrs, name, param, value);
  }

  /** `get` on a namespace attribute that is not a dict raises AttributeError. */
  lemma GetOnNonDict(attrs: map<string, Value>, name: string, param: string, default: Value)
    requires !Lookup(attrs, name).Dict?
    ensures Fetched(attrs, name, param, default) == Raised(AttributeError)
  {
  }

  // ---------------------------------------------------------------------
  // The store
  // ---------------------------------------------------------------------

  class ParamManager {
    const ns: Namespace
    /** The namespace unqualified calls target. */
    var namespace: string

    constructor (ns: Namespace)
      ensures this.ns == ns && namespace == DefaultNamespace
    {
      this.ns := ns;
      namespace := DefaultNamespace;
    }

    /** `setNamespace`: local to this store; the shared region is not in its frame. */
    method SetNamespace(name: string)
      modifies this
      ensures namespace == name
    {
      namespace := name;
    }

    /** The namespace a call targets: the explicit argument when given,
        otherwise the current namespace. */
    function Target(explicit: Option<string>): (name: string)
      reads this
      ensures explicit.Some? ==> name == explicit.value
      ensures explicit.None? ==> name == namespace
    {
      if explicit.Some? then explicit.value else namespace
    }

    /** `getAll(namespace)` */
    function GetAll(explicit: Option<string>): (v: Value)
      reads this, ns
      ensures GetAttr(ns.attrs, Target(explicit)).Some? ==> v == GetAttr(ns.attrs, Target(explicit)).value
      ensures GetAttr(ns.attrs, Target(explicit)).None? ==> v == Dict(map[])
    {
      Lookup(ns.attrs, Target(explicit))
    }

    /** `set(param, value, namespace)`: the read-modify-write of lines 109-113. */
    method Set(param: string, value: Value, explicit: Option<string>) returns (err: Option<PyError>)
      modifies ns
      ensures var r := Stored(old(ns.attrs), Target(explicit), param, value);
              && (r.Ok? ==> err == None && ns.attrs == r.value)
              && (r.Raised? ==> err == Some(r.error) && ns.attrs == old(ns.attrs))
      ensures err == None ==>
                GetAll(explicit) == Dict(old(GetAll(explicit)).entries[param := value])
    {
      var name := Target(explicit);
      var params := GetAll(Some(name));
      match params {
        case Dict(entries) =>
          ns.SetAttr(name, Dict(entries[param := value]));
          err := None;
        case _ =>
          err := Some(TypeError);
      }
    }

    /** `get(param, default, namespace)` with no `throttle`: lines 128-136. */
    method Get(param: string, default: Value, explicit: Option<string>) returns (r: Result<Value>)
      modifies ns
      ensures var f := Fetched(old(ns.attrs), Target(explicit), param, default);
              && (f.Ok? ==> r == Ok(f.value.value) && ns.attrs == f.value.attrs)
              && (f.Raised? ==> r == Raised(f.error) && ns.attrs == old(ns.attrs))
    {
      var name := Target(explicit);
      var params := GetAll(Some(name));
      if !params.Dict? {
        return Raised(AttributeError);
      }
      var value := if param in params.entries then params.entries[param] else NoneValue;
      if value == NoneValue {
        value := default;
        // the namespace holds a dict, so this `set` cannot raise
        var _ := Set(param, value, Some(name));
      }
      r := Ok(value);
    }
  }

  /** An explicit namespace argument acts as that namespace being current:
      a call naming `name` reads and writes what an unqualified call of any
      store over the same shared region whose current namespace is `name`
      does, whatever the calling store's own current namespace is. */
  lemma ExplicitNamespaceActsAsCurrent(m: ParamManager, other: ParamManager, name: string,
                                       param: string, value: Value, default: Value)
    requires m.ns == other.ns && other.namespace == name
    ensures m.GetAll(Some(name)) == other.GetAll(None)
    ensures Stored(m.ns.attrs, m.Target(Some(name)), param, value)
            == Stored(other.ns.attrs, other.Target(None), param, value)
    ensures Fetched(m.ns.attrs, m.Target(Some(name)), param, default)
            == Fetched(other.ns.attrs, other.Target(None), param, default)
  {
  }

  /** A client run of the store: `get("x", 5)` on an empty namespace returns 5
      and installs it; `set("x", 1)`, `set("x", 2)` then `get("x")` returns 2;
      an explicit namespace is written without touching the current one. */
  method ParamsScenario() {
    var ns := new Namespace();
    var params := new ParamManager(ns);
    var r := params.Get("x", Int(5), None);
    assert r == Ok(Int(5));
    assert params.GetAll(None) == Dict(map["x" := Int(5)]);
    var e1 := params.Set("x", Int(1), None);
    var e2 := params.Set("x", Int(2), None);
    r := params.Get("x", NoneValue, None);
    assert r == Ok(Int(2));
    var e3 := params.Set("y", Int(7), Some("voice"));
    assert params.GetAll(Some("voice")) == Dict(map["y" := Int(7)]);
    assert params.GetAll(None) == Dict(map["x" := Int(2)]);
  }
}
