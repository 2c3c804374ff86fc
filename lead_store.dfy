/**
 * The `leads` table as the pipeline sees it: an ordered list of rows that grows by
 * `Lead::create` and whose rows are rewritten by `save()`. `Lead::where(...)->first()`
 * is "the first matching row in this order". Rows are never deleted.
 */
module LeadStore {
  import opened LeadModel

  class LeadStore {
    var leads: seq<Lead>

    ghost predicate Valid()
      reads this
    {
      ValidTable(leads)
    }

    constructor (initial: seq<Lead>)
      requires ValidTable(initial)
      ensures Valid() && leads == initial
    {
      leads := initial;
    }

    /** `Lead::create`: the INSERT fails (nothing changes) when it would violate a constraint. */
    method Create(lead: Lead) returns (ok: bool)
      requires Valid()
      modifies this
      ensures Valid()
      ensures ok == CanInsert(old(leads), lead)
      ensures leads == if ok then old(leads) + [lead] else old(leads)
    {
      ok := CanInsert(leads, lead);
      if ok {
        InsertKeepsValid(leads, lead);
        leads := leads + [lead];
      }
    }

    /** `$lead->save()` on an existing row: the UPDATE fails (nothing changes) on a violation. */
    method Save(k: nat, lead: Lead) returns (ok: bool)
      requires Valid() && k < |leads|
      modifies this
      ensures Valid()
      ensures ok == CanUpdate(old(leads), k, lead)
      ensures leads == if ok then old(leads)[k := lead] else old(leads)
    {
      ok := CanUpdate(leads, k, lead);
      if ok {
        UpdateKeepsValid(leads, k, lead);
        leads := leads[k := lead];
      }
    }
  }
}
