module SubscriptionManagers {
  import opened Options
  import opened Subscriptions
  import opened SubscriptionContents

  class SubscriptionManager {
    var subscriptions: Store

    constructor ()
      ensures subscriptions == map[]
    {
      subscriptions := map[];
    }

    method CreateSubscription(r: Request, freshId: string, now: int) returns (reply: Reply)
      modifies this
      ensures (subscriptions, reply) == Step(old(subscriptions), Timed(now, Create(r, freshId)))
      ensures if Complete(r) then reply.Created? && reply.sub.expiry == LastInstant(r, now) else reply == BadRequest
      ensures old(Keyed(subscriptions)) ==> Keyed(subscriptions)
    {
      if r.eventType.None? || (Or(r.url, "") == "" && Or(r.callback, "") == "") || r.eventType.value == "" {
        return BadRequest;
      }
      var sub := Build(r, freshId, now);
      subscriptions := subscriptions[freshId := sub];
      reply := Created(sub);
    }

    method DeleteSubscription(id: Option<string>, clientId: string) returns (reply: Reply)
      modifies this
      ensures forall now :: (subscriptions, reply) == Step(old(subscriptions), Timed(now, Delete(id, clientId)))
      ensures old(Keyed(subscriptions)) ==> Keyed(subscriptions)
    {
      if id.None? {
        return BadRequest;
      }
      if id.value !in subscriptions {
        return NotFound;
      }
      if clientId != "" && subscriptions[id.value].clientId != clientId {
        return Unauthorized;
      }
      subscriptions := subscriptions - {id.value};
      reply := Deleted;
    }

    method MatchesFilters(filters: map<string, string>, data: Event) returns (matches: bool)
      ensures matches == Admits(filters, data)
    {
      var todo := filters.Keys;
      while todo != {}
        invariant todo <= filters.Keys
        invariant forall k <- filters.Keys - todo :: k in data && Dump(data[k]) == filters[k]
        decreases |todo|
      {
        var k :| k in todo;
        if k !in data || Dump(data[k]) != filters[k] {
          return false;
        }
        todo := todo - {k};
      }
      matches := true;
    }

    /** The matching pass of `notify_event`: every selected subscription once, in some order. */
    method NotifyEvent(eventType: string, data: Event, now: int) returns (matching: seq<Subscription>)
      requires Keyed(subscriptions)
      ensures forall sub :: sub in matching <==>
                sub.id in subscriptions && subscriptions[sub.id] == sub
                && sub.id in Selected(subscriptions, eventType, data, now)
      ensures forall i, j :: 0 <= i < j < |matching| ==> matching[i].id != matching[j].id
    {
      matching := [];
      var todo := subscriptions.Keys;
      while todo != {}
        invariant todo <= subscriptions.Keys
        invariant forall sub :: sub in matching <==>
                    sub.id in subscriptions.Keys - todo && subscriptions[sub.id] == sub
                    && sub.id in Selected(subscriptions, eventType, data, now)
        invariant forall i, j :: 0 <= i < j < |matching| ==> matching[i].id != matching[j].id
        decreases |todo|
      {
        var id :| id in todo;
        var sub := subscriptions[id];
        if sub.active && sub.eventType == eventType && !(now > sub.expiry) {
          var matches := MatchesFilters(sub.filters, data);
          if matches {
            assert forall i :: 0 <= i < |matching| ==> matching[i] in matching;
            matching := matching + [sub];
          }
        }
        todo := todo - {id};
      }
    }

    method CleanupExpiredSubscriptions(now: int) returns (removed: nat)
      modifies this
      ensures (subscriptions, Removed(removed)) == Step(old(subscriptions), Timed(now, Cleanup))
      ensures removed == |old(subscriptions)| - |subscriptions|
      ensures old(Keyed(subscriptions)) ==> Keyed(subscriptions)
    {
      ghost var all := subscriptions;
      removed := 0;
      var todo := subscriptions.Keys;
      SweepNone(all, now);
      while todo != {}
        invariant todo <= all.Keys
        invariant subscriptions == SweptBut(all, now, todo) && removed == |ExpiredIds(all, now) - todo|
        decreases |todo|
      {
        var id :| id in todo;
        SweepNext(all, now, todo, id);
        if now > subscriptions[id].expiry {
          subscriptions := subscriptions - {id};
          removed := removed + 1;
        }
        todo := todo - {id};
      }
      SweepAll(all, now);
      KeyedStep(all, Timed(now, Cleanup));
    }
  }
}
