/**
 * The lead handlers of backend/src/controllers/lead.controller.js over an
 * in-memory lead table: create binds the buyer to the caller, the three
 * listings are filters, and update and delete act on one lead by id with no
 * ownership check.
 */
module Leads {
  import opened Common

  /** A row of the lead table. */
  datatype Lead = Lead(id: Id, propertyId: Option<Id>, agentId: Option<Id>, buyerId: Id, message: Option<string>)

  /**
   * The body of an update: `None` is a field the body does not carry. The
   * body goes to the database whole, so it may carry a new id as well. The
   * nullable fields may also be carried as `null`, which is `Some(None)`: the
   * update then clears them.
   */
  datatype LeadPatch = LeadPatch(
    id: Option<Id>,
    propertyId: Option<Option<Id>>,
    agentId: Option<Option<Id>>,
    buyerId: Option<Id>,
    message: Option<Option<string>>)

  const NoChange := LeadPatch(None, None, None, None, None)

  /** A body that moves a lead to buyer `other` and changes nothing else. */
  function MoveTo(other: Id): LeadPatch {
    LeadPatch(None, None, None, Some(other), None)
  }

  /** Every key names the lead stored under it. */
  predicate KeyedById(table: map<Id, Lead>) {
    forall id :: id in table ==> table[id].id == id
  }

  /** `getAgentLeads`: the leads addressed to `caller` as agent. */
  function AgentLeads(table: map<Id, Lead>, caller: Id): (r: set<Lead>)
    requires KeyedById(table)
    ensures forall l :: l in r <==> l.id in table && table[l.id] == l && l.agentId == Some(caller)
  {
    set id | id in table && table[id].agentId == Some(caller) :: table[id]
  }

  /** `getBuyerLeads`: the leads `caller` sent. */
  function BuyerLeads(table: map<Id, Lead>, caller: Id): (r: set<Lead>)
    requires KeyedById(table)
    ensures forall l :: l in r <==> l.id in table && table[l.id] == l && l.buyerId == caller
  {
    set id | id in table && table[id].buyerId == caller :: table[id]
  }

  /** `getAllLeads`: every lead, with no filter. */
  function AllLeads(table: map<Id, Lead>): (r: set<Lead>)
    requires KeyedById(table)
    ensures forall l :: l in r <==> l.id in table && table[l.id] == l
  {
    set id | id in table :: table[id]
  }

  /** Every lead is listed for its buyer, and for its agent when it names one. */
  lemma ListingsCover(table: map<Id, Lead>, id: Id)
    requires KeyedById(table) && id in table
    ensures table[id] in AllLeads(table)
    ensures table[id] in BuyerLeads(table, table[id].buyerId)
    ensures table[id].agentId.Some? ==> table[id] in AgentLeads(table, table[id].agentId.value)
  {
  }

  /** `getLeadById`: the lead, or 404; anyone may read any lead. */
  function GetLeadById(table: map<Id, Lead>, id: Id): (r: Reply<Lead>)
    ensures id !in table ==> r == Fail(404, "Lead not found")
    ensures id in table ==> r == Ok(200, table[id])
  {
    if id in table then Ok(200, table[id]) else Fail(404, "Lead not found")
  }

  /** `update({ data: req.body })`: the fields the body carries are overwritten, the others kept. */
  function Patched(l: Lead, patch: LeadPatch): (r: Lead)
    ensures r.id == if patch.id.Some? then patch.id.value else l.id
    ensures r.propertyId == if patch.propertyId.Some? then patch.propertyId.value else l.propertyId
    ensures r.agentId == if patch.agentId.Some? then patch.agentId.value else l.agentId
    ensures r.buyerId == if patch.buyerId.Some? then patch.buyerId.value else l.buyerId
    ensures r.message == if patch.message.Some? then patch.message.value else l.message
  {
    Lead(
      if patch.id.Some? then patch.id.value else l.id,
      if patch.propertyId.Some? then patch.propertyId.value else l.propertyId,
      if patch.agentId.Some? then patch.agentId.value else l.agentId,
      if patch.buyerId.Some? then patch.buyerId.value else l.buyerId,
      if patch.message.Some? then patch.message.value else l.message)
  }

  /** An empty body changes nothing, and applying a body twice is applying it once. */
  lemma PatchedLaws(l: Lead, patch: LeadPatch)
    ensures Patched(l, NoChange) == l
    ensures Patched(Patched(l, patch), patch) == Patched(l, patch)
  {
  }

  /** A body that sets the agent to `null` and changes nothing else. */
  const DropAgent := LeadPatch(None, None, Some(None), None, None)

  /** Setting the agent to `null` takes the lead out of its agent's listing and keeps it in its buyer's. */
  lemma NullAgentLeavesListing(table: map<Id, Lead>, id: Id)
    requires KeyedById(table) && id in table && table[id].agentId.Some?
    ensures Patched(table[id], DropAgent) !in AgentLeads(table[id := Patched(table[id], DropAgent)], table[id].agentId.value)
    ensures Patched(table[id], DropAgent) in BuyerLeads(table[id := Patched(table[id], DropAgent)], table[id].buyerId)
  {
    assert KeyedById(table[id := Patched(table[id], DropAgent)]);
  }

  /** Setting the message to `null` erases it and leaves every other field. */
  lemma NullErasesMessage(l: Lead)
    ensures Patched(l, LeadPatch(None, None, None, None, Some(None))) == l.(message := None)
  {
  }

  /** The body moves lead `id` onto the id of another stored lead. */
  predicate Rekeys(table: map<Id, Lead>, id: Id, patch: LeadPatch)
    requires id in table
  {
    Patched(table[id], patch).id != id && Patched(table[id], patch).id in table
  }

  /**
   * A body carrying a free id moves the lead: it is listed under the new id,
   * the old id no longer answers, and the table stays keyed by id.
   */
  lemma UpdateMovesId(table: map<Id, Lead>, id: Id, patch: LeadPatch)
    requires KeyedById(table) && id in table
    requires patch.id.Some? && patch.id.value != id && patch.id.value !in table
    ensures var after := (table - {id})[patch.id.value := Patched(table[id], patch)];
      && KeyedById(after)
      && GetLeadById(after, id) == Fail(404, "Lead not found")
      && GetLeadById(after, patch.id.value) == Ok(200, Patched(table[id], patch))
      && |AllLeads(after)| == |AllLeads(table)|
  {
    var moved := Patched(table[id], patch);
    var after := (table - {id})[patch.id.value := moved];
    assert AllLeads(after) == AllLeads(table) - {table[id]} + {moved};
    assert table[id] in AllLeads(table);
    assert moved !in AllLeads(table);
  }

  /** Anyone who may call update can move a lead to another buyer: it leaves that buyer's listing for the other's. */
  lemma UpdateMovesBuyer(table: map<Id, Lead>, id: Id, other: Id)
    requires KeyedById(table) && id in table && other != table[id].buyerId
    ensures KeyedById(table[id := Patched(table[id], MoveTo(other))])
    ensures Patched(table[id], MoveTo(other)) in BuyerLeads(table[id := Patched(table[id], MoveTo(other))], other)
    ensures table[id] !in BuyerLeads(table[id := Patched(table[id], MoveTo(other))], table[id].buyerId)
  {
    var moved := Patched(table[id], MoveTo(other));
    var after := table[id := moved];
    assert after[moved.id] == moved;
    assert after[table[id].id] != table[id];
  }

  class LeadStore {
    var table: map<Id, Lead>
    var nextId: Id

    ghost predicate Valid()
      reads this
    {
      KeyedById(table) && forall id :: id in table ==> id < nextId
    }

    constructor ()
      ensures Valid() && table == map[] && nextId == 0
    {
      table := map[];
      nextId := 0;
    }

    /** `createLead`: the buyer is the caller whatever the body says; the property and agent are stored unchecked. */
    method CreateLead(caller: Id, propertyId: Option<Id>, agentId: Option<Id>, message: Option<string>)
      returns (reply: Reply<Lead>)
      requires Valid()
      modifies this
      ensures Valid() && nextId == old(nextId) + 1
      ensures reply == Ok(200, Lead(old(nextId), propertyId, agentId, caller, message))
      ensures table == old(table)[old(nextId) := reply.value] && old(nextId) !in old(table)
      ensures BuyerLeads(table, caller) == BuyerLeads(old(table), caller) + {reply.value}
    {
      var lead := Lead(nextId, propertyId, agentId, caller, message);
      table := table[nextId := lead];
      nextId := nextId + 1;
      reply := Ok(200, lead);
    }

    /**
     * `updateLead`: 404 with nothing written; 500 with nothing written when the
     * body moves the lead onto the id of another lead (the key is unique);
     * otherwise the patched lead is stored under its own, possibly new, id and
     * returned, and other leads are untouched. The id counter moves past a
     * written id so that later creates cannot collide with it.
     */
    method UpdateLead(id: Id, patch: LeadPatch) returns (reply: Reply<Lead>)
      requires Valid()
      modifies this
      ensures Valid()
      ensures id !in old(table) ==>
        reply == Fail(404, "Lead not found") && table == old(table) && nextId == old(nextId)
      ensures id in old(table) && Rekeys(old(table), id, patch) ==>
        reply == Fail(500, "Internal server error") && table == old(table) && nextId == old(nextId)
      ensures id in old(table) && !Rekeys(old(table), id, patch) ==>
        && reply == Ok(200, Patched(old(table)[id], patch))
        && table == (old(table) - {id})[reply.value.id := reply.value]
        && nextId == if reply.value.id < old(nextId) then old(nextId) else reply.value.id + 1
    {
      if id !in table {
        return Fail(404, "Lead not found");
      }
      var updated := Patched(table[id], patch);
      if updated.id != id && updated.id in table {
        return Fail(500, "Internal server error");
      }
      table := (table - {id})[updated.id := updated];
      if nextId <= updated.id {
        nextId := updated.id + 1;
      }
      reply := Ok(200, updated);
    }

    /** `deleteLead`: 404 with nothing removed, or exactly that lead removed. */
    method DeleteLead(id: Id) returns (reply: Reply<string>)
      requires Valid()
      modifies this
      ensures Valid() && nextId == old(nextId)
      ensures id !in old(table) ==> reply == Fail(404, "Lead not found") && table == old(table)
      ensures id in old(table) ==>
        reply == Ok(200, "Deleted") && table == old(table) - {id} &&
        AllLeads(table) == AllLeads(old(table)) - {old(table)[id]}
    {
      if id !in table {
        return Fail(404, "Lead not found");
      }
      table := table - {id};
      reply := Ok(200, "Deleted");
    }
  }
}
