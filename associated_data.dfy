/**
 * The associated-data ledger of a road-segment relationship, as values.
 *
 * A relationship's properties are a map from key to stored value. The ledger is
 * the string array under the reserved key "associatedData": the names of the
 * associated-data properties attached so far, in first-attachment order. Each
 * attached name holds the JSON array last written under it.
 *
 * The functions here specify GraphDb.addAssociatedDataProperty and the two
 * setAssociatedData overloads; the methods of module GraphDb are proved against them.
 */
module AssociatedData {
  import opened Wrappers
  import opened Json
  import RoutingConstants
  import opened Sequences

  /** A stored property value: a string array (the ledger), the text of a JSON
      array (an associated-data payload), or any other value (osm_id, geom, ...). */
  datatype PropVal = Strings(items: seq<string>) | JsonText(json: JsonArray) | Opaque(tag: string)

  type Props = map<string, PropVal>

  /** `(String[]) relationship.getProperty("associatedData")` throws when the stored
      value is not a string array. */
  datatype AttachError = LedgerNotStringArray

  const LedgerKey: string := RoutingConstants.GraphPropertyNameAssociatedData

  /** The ledger can be read: it is absent, or it is a string array. */
  predicate LedgerReadable(props: Props) {
    LedgerKey in props ==> props[LedgerKey].Strings?
  }

  /** The ledger's names; an absent ledger reads as no names. */
  function Ledger(props: Props): seq<string>
    requires LedgerReadable(props)
  {
    if LedgerKey in props then props[LedgerKey].items else []
  }

  /** The ledger invariant: readable, duplicate-free, and every name in it is an
      ordinary key that holds a JSON payload. */
  predicate LedgerInvariant(props: Props) {
    && LedgerReadable(props)
    && NoDuplicates(Ledger(props))
    && forall n :: n in Ledger(props) ==> n != LedgerKey && n in props && props[n].JsonText?
  }

  /** The duplicate check and append of an existing ledger. */
  function AddName(ledger: seq<string>, name: string): (r: seq<string>)
    ensures ledger <= r && |r| <= |ledger| + 1
    ensures name in r
    ensures name in ledger ==> r == ledger
    ensures forall n :: n in r ==> n in ledger || n == name
    ensures NoDuplicates(ledger) ==> NoDuplicates(r)
  {
    if name in ledger then ledger else ledger + [name]
  }

  /** addAssociatedDataProperty: create the ledger as [name], or append name to
      the existing ledger unless it is already there, and write it back. */
  function WithLedgerEntry(props: Props, name: string): (r: Result<Props, AttachError>)
    ensures r.Ok? <==> LedgerReadable(props)
    ensures r.Ok? ==> LedgerReadable(r.value) && Ledger(r.value) == AddName(Ledger(props), name)
    ensures r.Ok? ==> r.value.Keys == props.Keys + {LedgerKey}
    ensures r.Ok? ==> forall k :: k in props && k != LedgerKey ==> r.value[k] == props[k]
  {
    if LedgerKey in props then
      match props[LedgerKey]
      case Strings(existing) => Ok(props[LedgerKey := Strings(AddName(existing, name))])
      case _ => Err(LedgerNotStringArray)
    else
      Ok(props[LedgerKey := Strings([name])])
  }

  /** setAssociatedData, once the payload is an array: update the ledger, then
      overwrite property `name` with the payload. */
  function Attach(props: Props, name: string, payload: JsonArray): (r: Result<Props, AttachError>)
    ensures r.Ok? <==> LedgerReadable(props)
    ensures r.Ok? ==> r.value.Keys == props.Keys + {LedgerKey, name}
    ensures r.Ok? ==> r.value[name] == JsonText(payload)
    ensures r.Ok? ==> forall k :: k in props && k != LedgerKey && k != name ==> r.value[k] == props[k]
    ensures r.Ok? && name != LedgerKey ==>
              LedgerReadable(r.value) && Ledger(r.value) == AddName(Ledger(props), name)
  {
    match WithLedgerEntry(props, name)
    case Ok(tagged) => Ok(tagged[name := JsonText(payload)])
    case Err(e) => Err(e)
  }

  /** The JSONObject overload wraps its object into a one-element array. */
  function Wrapped(obj: JsonObject): (a: JsonArray)
    ensures |a| == 1 && a[0].ObjectValue? && a[0].obj == obj
  {
    [ObjectValue(obj)]
  }

  // ---------------------------------------------------------------------------
  // One call

  lemma CreatesLedger(props: Props, name: string, payload: JsonArray)
    requires LedgerKey !in props && name != LedgerKey
    ensures Attach(props, name, payload).Ok?
    ensures Ledger(Attach(props, name, payload).value) == [name]
  {
  }

  lemma AppendsNewName(props: Props, name: string, payload: JsonArray)
    requires LedgerKey in props && props[LedgerKey].Strings?
    requires name != LedgerKey && name !in Ledger(props)
    ensures Attach(props, name, payload).Ok?
    ensures Ledger(Attach(props, name, payload).value) == Ledger(props) + [name]
  {
  }

  lemma KnownNameLeavesLedger(props: Props, name: string, payload: JsonArray)
    requires LedgerReadable(props) && name != LedgerKey && name in Ledger(props)
    ensures Attach(props, name, payload).Ok?
    ensures Ledger(Attach(props, name, payload).value) == Ledger(props)
  {
  }

  lemma UnreadableLedgerFails(props: Props, name: string, payload: JsonArray)
    requires LedgerKey in props && !props[LedgerKey].Strings?
    ensures Attach(props, name, payload) == Err(LedgerNotStringArray)
  {
  }

  /** Attaching under an ordinary name keeps the ledger invariant and records the name. */
  lemma AttachPreservesInvariant(props: Props, name: string, payload: JsonArray)
    requires LedgerInvariant(props) && name != LedgerKey
    ensures Attach(props, name, payload).Ok?
    ensures LedgerInvariant(Attach(props, name, payload).value)
    ensures name in Ledger(Attach(props, name, payload).value)
  {
  }

  /** The reserved name is not guarded: the payload replaces the ledger itself,
      and every later attach on the relationship fails its cast. */
  lemma ReservedNameBreaksLedger(props: Props, payload: JsonArray, name: string, later: JsonArray)
    requires LedgerReadable(props)
    ensures Attach(props, LedgerKey, payload).Ok?
    ensures !LedgerReadable(Attach(props, LedgerKey, payload).value)
    ensures Attach(Attach(props, LedgerKey, payload).value, name, later) == Err(LedgerNotStringArray)
  {
  }

  /** Overwrite: a second attach under the same name discards the first payload. */
  lemma SecondAttachOverwrites(props: Props, name: string, first: JsonArray, second: JsonArray)
    requires LedgerReadable(props) && name != LedgerKey
    ensures Attach(props, name, first).Ok?
    ensures Attach(Attach(props, name, first).value, name, second) == Attach(props, name, second)
  {
    var once := Attach(props, name, first).value;
    var twice := Attach(once, name, second).value;
    var direct := Attach(props, name, second).value;
    assert Ledger(twice) == Ledger(direct);
    assert twice[LedgerKey] == direct[LedgerKey];
    assert twice.Keys == direct.Keys;
    forall k | k in twice
      ensures twice[k] == direct[k]
    {
    }
    assert twice == direct;
  }

  // ---------------------------------------------------------------------------
  // A sequence of calls on one relationship

  datatype Call = Call(name: string, payload: JsonArray)

  /** Attach each call in order; the first failure aborts the rest. */
  function AttachAll(props: Props, calls: seq<Call>): Result<Props, AttachError>
    decreases |calls|
  {
    if calls == [] then Ok(props)
    else
      match Attach(props, calls[0].name, calls[0].payload)
      case Ok(next) => AttachAll(next, calls[1..])
      case Err(e) => Err(e)
  }

  function Names(calls: seq<Call>): seq<string>
    decreases |calls|
  {
    if calls == [] then [] else [calls[0].name] + Names(calls[1..])
  }

  /** Reference definition of first-attachment order: the names not in `seen`,
      each kept at its first occurrence. */
  function NewNames(names: seq<string>, seen: seq<string>): seq<string>
    decreases |names|
  {
    if names == [] then []
    else if names[0] in seen then NewNames(names[1..], seen)
    else [names[0]] + NewNames(names[1..], seen + [names[0]])
  }

  /** The payload of the last call under `name`, if any. */
  function LastPayload(calls: seq<Call>, name: string): Option<JsonArray>
    decreases |calls|
  {
    if calls == [] then None
    else
      match LastPayload(calls[1..], name)
      case Some(p) => Some(p)
      case None => if calls[0].name == name then Some(calls[0].payload) else None
  }

  predicate OrdinaryNames(calls: seq<Call>) {
    forall i :: 0 <= i < |calls| ==> calls[i].name != LedgerKey
  }

  /** After any sequence of ordinary attaches, the ledger is the old ledger
      followed by the new names in first-attachment order. */
  lemma {:induction false} AttachAllLedger(props: Props, calls: seq<Call>)
    requires LedgerReadable(props) && OrdinaryNames(calls)
    ensures AttachAll(props, calls).Ok?
    ensures LedgerReadable(AttachAll(props, calls).value)
    ensures Ledger(AttachAll(props, calls).value)
            == Ledger(props) + NewNames(Names(calls), Ledger(props))
    decreases |calls|
  {
    if calls != [] {
      var c, rest := calls[0], calls[1..];
      assert c.name != LedgerKey;
      var next := Attach(props, c.name, c.payload).value;
      assert AttachAll(props, calls) == AttachAll(next, rest);
      OrdinaryTail(calls);
      AttachAllLedger(next, rest);
      assert Names(calls) == [c.name] + Names(rest);
      NewNamesStep(Ledger(props), c.name, Names(rest));
    }
  }

  /** One step of first-attachment order: appending `name` if new, then the rest. */
  lemma NewNamesStep(ledger: seq<string>, name: string, rest: seq<string>)
    ensures ledger + NewNames([name] + rest, ledger)
            == AddName(ledger, name) + NewNames(rest, AddName(ledger, name))
  {
    assert ([name] + rest)[1..] == rest;
    if name !in ledger {
      var tail := NewNames(rest, ledger + [name]);
      assert ledger + ([name] + tail) == (ledger + [name]) + tail;
    }
  }

  lemma OrdinaryTail(calls: seq<Call>)
    requires calls != [] && OrdinaryNames(calls)
    ensures OrdinaryNames(calls[1..])
  {
    forall i | 0 <= i < |calls[1..]| ensures calls[1..][i].name != LedgerKey {
      assert calls[1..][i] == calls[i + 1];
    }
  }

  /** After any sequence of ordinary attaches, each name holds the payload of its
      last call, and every other key is as before. */
  lemma {:induction false} AttachAllPayloads(props: Props, calls: seq<Call>, name: string)
    requires LedgerReadable(props) && OrdinaryNames(calls) && name != LedgerKey
    ensures AttachAll(props, calls).Ok?
    ensures LastPayload(calls, name).Some? ==>
              name in AttachAll(props, calls).value
              && AttachAll(props, calls).value[name] == JsonText(LastPayload(calls, name).value)
    ensures LastPayload(calls, name).None? ==>
              (name in AttachAll(props, calls).value <==> name in props)
              && (name in props ==> AttachAll(props, calls).value[name] == props[name])
    decreases |calls|
  {
    if calls != [] {
      var c := calls[0];
      var next := Attach(props, c.name, c.payload).value;
      OrdinaryTail(calls);
      AttachAllPayloads(next, calls[1..], name);
    }
  }

  lemma {:induction false} NewNamesProperties(names: seq<string>, seen: seq<string>)
    ensures NoDuplicates(NewNames(names, seen))
    ensures forall n :: n in NewNames(names, seen) <==> n in names && n !in seen
    decreases |names|
  {
    if names != [] {
      if names[0] in seen {
        NewNamesProperties(names[1..], seen);
      } else {
        NewNamesProperties(names[1..], seen + [names[0]]);
        forall n ensures n in seen + [names[0]] <==> n in seen || n == names[0] {
        }
      }
    }
  }

  /** Starting with no ledger, any sequence of ordinary attaches leaves a
      duplicate-free ledger in first-attachment order whose length is the number
      of distinct names attached. */
  lemma FirstAttachmentOrder(props: Props, calls: seq<Call>)
    requires LedgerKey !in props && OrdinaryNames(calls)
    ensures AttachAll(props, calls).Ok?
    ensures LedgerReadable(AttachAll(props, calls).value)
    ensures Ledger(AttachAll(props, calls).value) == NewNames(Names(calls), [])
    ensures NoDuplicates(Ledger(AttachAll(props, calls).value))
    ensures |Ledger(AttachAll(props, calls).value)| == |set n | n in Names(calls)|
  {
    AttachAllLedger(props, calls);
    var ledger := Ledger(AttachAll(props, calls).value);
    NewNamesProperties(Names(calls), []);
    DistinctCount(ledger);
    assert (set n | n in Names(calls)) == (set n | n in ledger);
  }

  // ---------------------------------------------------------------------------
  // The scenarios of GraphDbTest.java

  /** Two different names: the ledger lists both, in call order, and each holds its payload. */
  lemma TwoNamesInCallOrder(props: Props, a: JsonArray, b: JsonArray)
    requires LedgerKey !in props
    ensures Attach(props, "myProp", a).Ok?
    ensures Attach(Attach(props, "myProp", a).value, "myProp2", b).Ok?
    ensures var r := Attach(Attach(props, "myProp", a).value, "myProp2", b).value;
            LedgerReadable(r) && Ledger(r) == ["myProp", "myProp2"]
            && r["myProp"] == JsonText(a) && r["myProp2"] == JsonText(b)
  {
    CreatesLedger(props, "myProp", a);
    var once := Attach(props, "myProp", a).value;
    AppendsNewName(once, "myProp2", b);
  }

  /** The same name twice: the ledger holds it once and the payload is the second. */
  lemma SameNameTwice(props: Props, a: JsonArray, b: JsonArray)
    requires LedgerKey !in props
    ensures Attach(props, "myProp", a).Ok?
    ensures Attach(Attach(props, "myProp", a).value, "myProp", b).Ok?
    ensures var r := Attach(Attach(props, "myProp", a).value, "myProp", b).value;
            LedgerReadable(r) && Ledger(r) == ["myProp"] && r["myProp"] == JsonText(b)
  {
    CreatesLedger(props, "myProp", a);
    var once := Attach(props, "myProp", a).value;
    KnownNameLeavesLedger(once, "myProp", b);
  }

  /** Two JSON objects under different names: the ledger lists both in call order,
      and each name holds the one-element array of its own object. */
  lemma TwoObjectsInCallOrder(props: Props, a: JsonObject, b: JsonObject)
    requires LedgerKey !in props
    ensures Attach(props, "myProp", Wrapped(a)).Ok?
    ensures Attach(Attach(props, "myProp", Wrapped(a)).value, "myProp2", Wrapped(b)).Ok?
    ensures var r := Attach(Attach(props, "myProp", Wrapped(a)).value, "myProp2", Wrapped(b)).value;
            LedgerReadable(r) && Ledger(r) == ["myProp", "myProp2"]
            && r["myProp"].JsonText? && r["myProp"].json == [ObjectValue(a)]
            && r["myProp2"].JsonText? && r["myProp2"].json == [ObjectValue(b)]
  {
    TwoNamesInCallOrder(props, Wrapped(a), Wrapped(b));
  }

  /** Two JSON objects under one name: the ledger holds the name once, and the
      stored array holds only the second object. */
  lemma SecondObjectOverwrites(props: Props, a: JsonObject, b: JsonObject)
    requires LedgerKey !in props
    ensures Attach(props, "myProp", Wrapped(a)).Ok?
    ensures Attach(Attach(props, "myProp", Wrapped(a)).value, "myProp", Wrapped(b)).Ok?
    ensures var r := Attach(Attach(props, "myProp", Wrapped(a)).value, "myProp", Wrapped(b)).value;
            LedgerReadable(r) && Ledger(r) == ["myProp"]
            && r["myProp"].JsonText? && r["myProp"].json == [ObjectValue(b)]
  {
    SameNameTwice(props, Wrapped(a), Wrapped(b));
  }
}
