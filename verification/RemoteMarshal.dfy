/**
 Marshalling between the engine (remote.py) and the runner (_remote_runner.py).

 JSON text is abstract here: what crosses is a Json tree.  Engine values are PyVal, values
 living in the runner are RVal; a value JSON cannot carry is Unshippable / Opaque.
 */
module RemoteMarshal {
  import opened Common

  const REF_KEY := "__pyte_ref__"

  /** JSON's scalars; a float is a numeral, mantissa times a power of two. */
  datatype Atom = Null | Bool(b: bool) | Num(n: int) | Float(mantissa: int, exponent: int) | Str(s: string)

  datatype Json = Leaf(a: Atom) | Arr(items: seq<Json>) | Obj(fields: seq<Field>)
  datatype Field = Field(key: string, val: Json)

  /** An engine-side value.  Proxy(session, handle) is a RemoteObject. */
  datatype PyVal =
    | PyAtom(a: Atom)
    | Proxy(session: nat, handle: int)
    | PyList(elems: seq<PyVal>)
    | PyDict(entries: seq<PyEntry>)
    | Unshippable(what: nat)
  datatype PyEntry = PyEntry(key: string, val: PyVal)

  /** A value inside the runner process; Opaque(id) is any object json.dumps refuses. */
  datatype RVal =
    | RAtom(a: Atom)
    | RList(elems: seq<RVal>)
    | RDict(entries: seq<REntry>)
    | Opaque(id: nat)
  datatype REntry = REntry(key: string, val: RVal)

  datatype EncodeError = ForeignProxy | ReservedKey | NotSerializable
  datatype DecodeError = UnknownHandle | BadHandle

  function RefTo(handle: int): Json {
    Obj([Field(REF_KEY, Leaf(Num(handle)))])
  }

  /** set(value) == {RefKey}: keys of a dict are distinct, so it has the one entry. */
  predicate IsRef(j: Json) {
    j.Obj? && |j.fields| == 1 && j.fields[0].key == REF_KEY
  }

  // ---- engine to runner ------------------------------------------------------------

  /** RemotePython._encode for the session `me`. */
  function Encode(v: PyVal, me: nat): Result<Json, EncodeError> {
    match v
    case PyAtom(a) => Ok(Leaf(a))
    case Proxy(session, handle) => if session != me then Err(ForeignProxy) else Ok(RefTo(handle))
    case PyList(elems) =>
      var items :- EncodeList(elems, me);
      Ok(Arr(items))
    case PyDict(entries) =>
      if exists e <- entries :: e.key == REF_KEY then Err(ReservedKey) else
      var fields :- EncodeEntries(entries, me);
      Ok(Obj(fields))
    case Unshippable(_) => Err(NotSerializable)
  }

  function EncodeList(vs: seq<PyVal>, me: nat): Result<seq<Json>, EncodeError> {
    if vs == [] then Ok([]) else
    var head :- Encode(vs[0], me);
    var tail :- EncodeList(vs[1..], me);
    Ok([head] + tail)
  }

  function EncodeEntries(es: seq<PyEntry>, me: nat): Result<seq<Field>, EncodeError> {
    if es == [] then Ok([]) else
    var head :- Encode(es[0].val, me);
    var tail :- EncodeEntries(es[1..], me);
    Ok([Field(es[0].key, head)] + tail)
  }

  /** Runner._decode over the handle table. */
  function RunnerDecode(j: Json, objects: map<int, RVal>): Result<RVal, DecodeError> {
    match j
    case Leaf(a) => Ok(RAtom(a))
    case Arr(items) =>
      var elems :- RunnerDecodeList(items, objects);
      Ok(RList(elems))
    case Obj(fields) =>
      if IsRef(j) then
        match fields[0].val
        case Leaf(Num(h)) => if h in objects then Ok(objects[h]) else Err(UnknownHandle)
        case _ => Err(BadHandle)
      else
        var entries :- RunnerDecodeFields(fields, objects);
        Ok(RDict(entries))
  }

  function RunnerDecodeList(js: seq<Json>, objects: map<int, RVal>): Result<seq<RVal>, DecodeError> {
    if js == [] then Ok([]) else
    var head :- RunnerDecode(js[0], objects);
    var tail :- RunnerDecodeList(js[1..], objects);
    Ok([head] + tail)
  }

  function RunnerDecodeFields(fs: seq<Field>, objects: map<int, RVal>): Result<seq<REntry>, DecodeError> {
    if fs == [] then Ok([]) else
    var head :- RunnerDecode(fs[0].val, objects);
    var tail :- RunnerDecodeFields(fs[1..], objects);
    Ok([REntry(fs[0].key, head)] + tail)
  }

  /** What the engine may ship: stated on the value, with no reference to Encode. */
  ghost predicate Shippable(v: PyVal, me: nat) {
    match v
    case PyAtom(_) => true
    case Proxy(session, _) => session == me
    case PyList(elems) => forall i :: 0 <= i < |elems| ==> Shippable(elems[i], me)
    case PyDict(entries) =>
      && (forall i :: 0 <= i < |entries| ==> entries[i].key != REF_KEY)
      && (forall i :: 0 <= i < |entries| ==> Shippable(entries[i].val, me))
    case Unshippable(_) => false
  }

  /** The handles of all proxies inside v. */
  ghost function Handles(v: PyVal): set<int> {
    match v
    case Proxy(_, handle) => {handle}
    case PyList(elems) => HandlesOfList(elems)
    case PyDict(entries) => HandlesOfEntries(entries)
    case _ => {}
  }

  ghost function HandlesOfList(vs: seq<PyVal>): set<int> {
    if vs == [] then {} else Handles(vs[0]) + HandlesOfList(vs[1..])
  }

  ghost function HandlesOfEntries(es: seq<PyEntry>): set<int> {
    if es == [] then {} else Handles(es[0].val) + HandlesOfEntries(es[1..])
  }

  /** v with every proxy replaced by the object it stands for and nothing else changed. */
  ghost function Resolved(v: PyVal, objects: map<int, RVal>): RVal
    requires Handles(v) <= objects.Keys
  {
    match v
    case PyAtom(a) => RAtom(a)
    case Proxy(_, handle) => objects[handle]
    case PyList(elems) => RList(ResolvedList(elems, objects))
    case PyDict(entries) => RDict(ResolvedEntries(entries, objects))
    case Unshippable(what) => Opaque(what)
  }

  ghost function ResolvedList(vs: seq<PyVal>, objects: map<int, RVal>): seq<RVal>
    requires HandlesOfList(vs) <= objects.Keys
  {
    if vs == [] then [] else [Resolved(vs[0], objects)] + ResolvedList(vs[1..], objects)
  }

  ghost function ResolvedEntries(es: seq<PyEntry>, objects: map<int, RVal>): seq<REntry>
    requires HandlesOfEntries(es) <= objects.Keys
  {
    if es == [] then [] else [REntry(es[0].key, Resolved(es[0].val, objects))] + ResolvedEntries(es[1..], objects)
  }

  /** The engine refuses exactly the values that are not Shippable. */
  lemma {:induction false} EncodeAcceptsExactlyShippable(v: PyVal, me: nat)
    ensures Encode(v, me).Ok? <==> Shippable(v, me)
    decreases v
  {
    match v
    case PyList(elems) =>
      EncodeListAccepts(elems, me);
    case PyDict(entries) =>
      EncodeEntriesAccepts(entries, me);
    case _ =>
  }

  lemma {:induction false} EncodeListAccepts(vs: seq<PyVal>, me: nat)
    ensures EncodeList(vs, me).Ok? <==> forall i :: 0 <= i < |vs| ==> Shippable(vs[i], me)
    decreases vs
  {
    if vs != [] {
      EncodeAcceptsExactlyShippable(vs[0], me);
      EncodeListAccepts(vs[1..], me);
      assert forall i :: 1 <= i < |vs| ==> vs[i] == vs[1..][i - 1];
    }
  }

  lemma {:induction false} EncodeEntriesAccepts(es: seq<PyEntry>, me: nat)
    ensures EncodeEntries(es, me).Ok? <==> forall i :: 0 <= i < |es| ==> Shippable(es[i].val, me)
    decreases es
  {
    if es != [] {
      EncodeAcceptsExactlyShippable(es[0].val, me);
      EncodeEntriesAccepts(es[1..], me);
      assert forall i :: 1 <= i < |es| ==> es[i] == es[1..][i - 1];
    }
  }

  /** The handles Runner._decode looks up in j. */
  ghost function JsonRefs(j: Json): set<int> {
    match j
    case Leaf(_) => {}
    case Arr(items) => JsonRefsOfList(items)
    case Obj(fields) =>
      if IsRef(j) then
        match fields[0].val
        case Leaf(Num(h)) => {h}
        case _ => {}
      else JsonRefsOfFields(fields)
  }

  ghost function JsonRefsOfList(js: seq<Json>): set<int> {
    if js == [] then {} else JsonRefs(js[0]) + JsonRefsOfList(js[1..])
  }

  ghost function JsonRefsOfFields(fs: seq<Field>): set<int> {
    if fs == [] then {} else JsonRefs(fs[0].val) + JsonRefsOfFields(fs[1..])
  }

  /** Shipping a value: the runner sees the same value with its own objects in place of the proxies,
      or a KeyError when some handle is not in the table; the wire names exactly the proxies' handles. */
  lemma {:induction false} RunnerSeesResolved(v: PyVal, me: nat, objects: map<int, RVal>)
    requires Shippable(v, me)
    ensures Encode(v, me).Ok?
    ensures JsonRefs(Encode(v, me).value) == Handles(v)
    ensures RunnerDecode(Encode(v, me).value, objects)
         == if Handles(v) <= objects.Keys then Ok(Resolved(v, objects)) else Err(UnknownHandle)
    decreases v
  {
    EncodeAcceptsExactlyShippable(v, me);
    match v
    case PyList(elems) =>
      RunnerSeesResolvedList(elems, me, objects);
    case PyDict(entries) =>
      RunnerSeesResolvedEntries(entries, me, objects);
    case _ =>
  }

  lemma {:induction false} RunnerSeesResolvedList(vs: seq<PyVal>, me: nat, objects: map<int, RVal>)
    requires forall i :: 0 <= i < |vs| ==> Shippable(vs[i], me)
    ensures EncodeList(vs, me).Ok?
    ensures JsonRefsOfList(EncodeList(vs, me).value) == HandlesOfList(vs)
    ensures RunnerDecodeList(EncodeList(vs, me).value, objects)
         == if HandlesOfList(vs) <= objects.Keys then Ok(ResolvedList(vs, objects)) else Err(UnknownHandle)
    decreases vs
  {
    if vs != [] {
      RunnerSeesResolved(vs[0], me, objects);
      assert forall i :: 1 <= i < |vs| ==> vs[i] == vs[1..][i - 1];
      RunnerSeesResolvedList(vs[1..], me, objects);
      assert EncodeList(vs, me).value[1..] == EncodeList(vs[1..], me).value;
    }
  }

  lemma {:induction false} RunnerSeesResolvedEntries(es: seq<PyEntry>, me: nat, objects: map<int, RVal>)
    requires forall i :: 0 <= i < |es| ==> es[i].key != REF_KEY
    requires forall i :: 0 <= i < |es| ==> Shippable(es[i].val, me)
    ensures EncodeEntries(es, me).Ok?
    ensures var fs := EncodeEntries(es, me).value;
      && JsonRefsOfFields(fs) == HandlesOfEntries(es)
      && !IsRef(Obj(fs))
      && RunnerDecodeFields(fs, objects)
         == if HandlesOfEntries(es) <= objects.Keys then Ok(ResolvedEntries(es, objects)) else Err(UnknownHandle)
    decreases es
  {
    if es != [] {
      RunnerSeesResolved(es[0].val, me, objects);
      assert forall i :: 1 <= i < |es| ==> es[i] == es[1..][i - 1];
      RunnerSeesResolvedEntries(es[1..], me, objects);
      assert EncodeEntries(es, me).value[1..] == EncodeEntries(es[1..], me).value;
    }
  }

  // ---- runner to engine ------------------------------------------------------------

  /** json.dumps accepts v. */
  predicate Jsonable(v: RVal) {
    match v
    case RAtom(_) => true
    case RList(elems) => forall i :: 0 <= i < |elems| ==> Jsonable(elems[i])
    case RDict(entries) => forall i :: 0 <= i < |entries| ==> Jsonable(entries[i].val)
    case Opaque(_) => false
  }

  function ToJson(v: RVal): Json
    requires Jsonable(v)
  {
    match v
    case RAtom(a) => Leaf(a)
    case RList(elems) =>
      Arr(seq(|elems|, i requires 0 <= i < |elems| && Jsonable(elems[i]) => ToJson(elems[i])))
    case RDict(entries) =>
      Obj(seq(|entries|, i requires 0 <= i < |entries| && Jsonable(entries[i].val)
                         => Field(entries[i].key, ToJson(entries[i].val))))
  }

  /** Runner._encode stores v in the table instead of shipping it by value. */
  predicate MustStash(v: RVal) {
    || (v.RDict? && exists e <- v.entries :: e.key == REF_KEY)
    || !Jsonable(v)
  }

  /** What the engine gets from a reply value. */
  datatype Decoded = NewProxy(handle: int) | ByValue(j: Json) | BadRef

  /** RemotePython._decode: only the top level is inspected. */
  function EngineDecode(j: Json): Decoded {
    if IsRef(j) then
      match j.fields[0].val
      case Leaf(Num(h)) => NewProxy(h)
      case _ => BadRef
    else ByValue(j)
  }

  /** The wire form of a result that was stashed under `handle` if it had to be. */
  function RunnerEncode(v: RVal, handle: int): Json {
    if MustStash(v) then RefTo(handle) else ToJson(v)
  }

  /** The engine makes a proxy exactly when the runner stashed the value, for exactly that handle;
      otherwise it holds the JSON image of the value unchanged. */
  lemma {:induction false} EngineProxiesExactlyTheStashed(v: RVal, handle: int)
    ensures EngineDecode(RunnerEncode(v, handle)).NewProxy? <==> MustStash(v)
    ensures MustStash(v) ==> EngineDecode(RunnerEncode(v, handle)) == NewProxy(handle)
    ensures !MustStash(v) ==> EngineDecode(RunnerEncode(v, handle)) == ByValue(ToJson(v))
  {
    if !MustStash(v) && v.RDict? && |v.entries| == 1 {
      assert v.entries[0] in v.entries;
    }
  }

  /** A by-value result as the engine holds it, ready to be an argument again. */
  function Reflect(j: Json): PyVal {
    match j
    case Leaf(a) => PyAtom(a)
    case Arr(items) => PyList(seq(|items|, i requires 0 <= i < |items| => Reflect(items[i])))
    case Obj(fields) =>
      PyDict(seq(|fields|, i requires 0 <= i < |fields| => PyEntry(fields[i].key, Reflect(fields[i].val))))
  }

  /** No dict at any depth of v holds the reserved key. */
  ghost predicate KeyFree(v: RVal) {
    match v
    case RList(elems) => forall i :: 0 <= i < |elems| ==> KeyFree(elems[i])
    case RDict(entries) =>
      && (forall i :: 0 <= i < |entries| ==> entries[i].key != REF_KEY)
      && (forall i :: 0 <= i < |entries| ==> KeyFree(entries[i].val))
    case _ => true
  }

  ghost function Echo(v: RVal): PyVal
    requires Jsonable(v)
  {
    Reflect(ToJson(v))
  }

  /** A result that came by value can be sent back exactly when no dict inside it holds the reserved key;
      the runner never ships such a dict by value at the top level, but inside a container it does. */
  lemma {:induction false} EchoShippable(v: RVal, me: nat)
    requires Jsonable(v)
    ensures Shippable(Echo(v), me) <==> KeyFree(v)
    decreases v
  {
    match v
    case RList(elems) =>
      forall i | 0 <= i < |elems|
        ensures Shippable(Echo(v).elems[i], me) <==> KeyFree(elems[i])
      {
        EchoShippable(elems[i], me);
      }
    case RDict(entries) =>
      forall i | 0 <= i < |entries|
        ensures Echo(v).entries[i].key == entries[i].key
        ensures Shippable(Echo(v).entries[i].val, me) <==> KeyFree(entries[i].val)
      {
        EchoShippable(entries[i].val, me);
      }
    case _ =>
  }

  /** ... and then the runner gets back the value it had sent, whatever its table holds by now. */
  lemma {:induction false} EchoResolves(v: RVal, objects: map<int, RVal>)
    requires Jsonable(v)
    ensures Handles(Echo(v)) == {}
    ensures Resolved(Echo(v), objects) == v
    decreases v
  {
    match v
    case RList(elems) =>
      forall i | 0 <= i < |elems|
        ensures Handles(Echo(v).elems[i]) == {} && Resolved(Echo(v).elems[i], objects) == elems[i]
      {
        EchoResolves(elems[i], objects);
      }
      ResolvedListIs(Echo(v).elems, elems, objects);
    case RDict(entries) =>
      forall i | 0 <= i < |entries|
        ensures Handles(Echo(v).entries[i].val) == {}
        ensures REntry(Echo(v).entries[i].key, Resolved(Echo(v).entries[i].val, objects)) == entries[i]
      {
        EchoResolves(entries[i].val, objects);
      }
      ResolvedEntriesAre(Echo(v).entries, entries, objects);
    case _ =>
  }

  lemma {:induction false} ResolvedListIs(vs: seq<PyVal>, rs: seq<RVal>, objects: map<int, RVal>)
    requires |vs| == |rs|
    requires forall i :: 0 <= i < |vs| ==> Handles(vs[i]) == {} && Resolved(vs[i], objects) == rs[i]
    ensures HandlesOfList(vs) == {} && ResolvedList(vs, objects) == rs
  {
    if vs != [] {
      ResolvedListIs(vs[1..], rs[1..], objects);
    }
  }

  lemma {:induction false} ResolvedEntriesAre(es: seq<PyEntry>, rs: seq<REntry>, objects: map<int, RVal>)
    requires |es| == |rs|
    requires forall i :: 0 <= i < |es| ==> Handles(es[i].val) == {}
                                           && REntry(es[i].key, Resolved(es[i].val, objects)) == rs[i]
    ensures HandlesOfEntries(es) == {} && ResolvedEntries(es, objects) == rs
  {
    if es != [] {
      ResolvedEntriesAre(es[1..], rs[1..], objects);
    }
  }
}
