/**
 * The associated-data operations of GraphDb.java, which update a relationship's
 * properties in place. A relationship is an object whose property map the
 * methods reassign; each method is proved against the functions of module
 * AssociatedData, and a thrown exception is a `Fail` outcome.
 */
module GraphDb {
  import opened Wrappers
  import opened Json
  import opened AssociatedData

  /** A road-segment relationship of the graph store and its properties. */
  class Relationship {
    var props: Props

    constructor (initial: Props)
      ensures props == initial
    {
      props := initial;
    }

    predicate HasProperty(key: string)
      reads this
    {
      key in props
    }

    function GetProperty(key: string): PropVal
      reads this
      requires HasProperty(key)
    {
      props[key]
    }

    method SetProperty(key: string, value: PropVal)
      modifies this
      ensures props == old(props)[key := value]
    {
      props := props[key := value];
    }
  }

  /** addAssociatedDataProperty: record `name` in the ledger of `rel`. Fails,
      changing nothing, when the stored ledger is not a string array. */
  method AddAssociatedDataProperty(rel: Relationship, name: string) returns (outcome: Outcome<AttachError>)
    modifies rel
    ensures outcome.Pass? <==> WithLedgerEntry(old(rel.props), name).Ok?
    ensures outcome.Pass? ==> rel.props == WithLedgerEntry(old(rel.props), name).value
    ensures outcome.Fail? ==> outcome.error == LedgerNotStringArray && rel.props == old(rel.props)
  {
    var ledger: seq<string>;
    if rel.HasProperty(LedgerKey) {
      var stored := rel.GetProperty(LedgerKey);
      if !stored.Strings? {
        return Fail(LedgerNotStringArray);
      }
      var existing := stored.items;
      if name !in existing {
        existing := existing + [name];
      }
      ledger := existing;
    } else {
      ledger := [name];
    }
    rel.SetProperty(LedgerKey, Strings(ledger));
    return Pass;
  }

  /** setAssociatedData(Relationship, String, JSONObject): record `name`, then
      store the one-element array holding `obj` under `name`. Keeps the ledger
      invariant for every name other than the reserved one. */
  method SetAssociatedDataObject(rel: Relationship, name: string, obj: JsonObject) returns (outcome: Outcome<AttachError>)
    modifies rel
    ensures outcome.Pass? <==> Attach(old(rel.props), name, Wrapped(obj)).Ok?
    ensures outcome.Pass? ==> rel.props == Attach(old(rel.props), name, Wrapped(obj)).value
    ensures outcome.Fail? ==> rel.props == old(rel.props)
    ensures old(LedgerInvariant(rel.props)) && name != LedgerKey ==>
              outcome.Pass? && LedgerInvariant(rel.props) && name in Ledger(rel.props)
  {
    ghost var before := rel.props;
    outcome := AddAssociatedDataProperty(rel, name);
    if outcome.Fail? {
      return;
    }
    var payload := [ObjectValue(obj)];
    rel.SetProperty(name, JsonText(payload));
    if LedgerInvariant(before) && name != LedgerKey {
      AttachPreservesInvariant(before, name, payload);
    }
  }

  /** setAssociatedData(Relationship, String, JSONArray): record `name`, then
      store `payload` unchanged under `name`. Keeps the ledger invariant for every
      name other than the reserved one. */
  method SetAssociatedDataArray(rel: Relationship, name: string, payload: JsonArray) returns (outcome: Outcome<AttachError>)
    modifies rel
    ensures outcome.Pass? <==> Attach(old(rel.props), name, payload).Ok?
    ensures outcome.Pass? ==> rel.props == Attach(old(rel.props), name, payload).value
    ensures outcome.Fail? ==> rel.props == old(rel.props)
    ensures old(LedgerInvariant(rel.props)) && name != LedgerKey ==>
              outcome.Pass? && LedgerInvariant(rel.props) && name in Ledger(rel.props)
  {
    ghost var before := rel.props;
    outcome := AddAssociatedDataProperty(rel, name);
    if outcome.Fail? {
      return;
    }
    rel.SetProperty(name, JsonText(payload));
    if LedgerInvariant(before) && name != LedgerKey {
      AttachPreservesInvariant(before, name, payload);
    }
  }
}
