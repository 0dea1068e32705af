/**
 * One connection of the server engine over the shared store (packages/server/src/engine/engine.ts):
 * each handler and each resumed `await` takes the step `ServerEngine` gives it.
 */
module ServerAttachment {
  import opened Common
  import opened SubscriptionStore
  import opened ServerEngine

  class Attachment {
    const store: InMemoryStore
    const who: nat
    var connection: Connection

    ghost function Model(): Side
      reads this, store
    {
      Side(store.Model(), connection)
    }

    constructor (store: InMemoryStore, who: nat)
      ensures this.store == store && this.who == who && connection == Opened()
    {
      this.store, this.who, connection := store, who, Opened();
    }

    method ClearSubscriptionOwnership(id: string)
      modifies this, store
      ensures Model() == ClearOwnership(old(Model()), id)
    {
      if id in connection.mySubIds {
        store.Remove(id);
        connection := connection.(mySubIds := connection.mySubIds - {id});
      }
    }

    method StartSubscribeAttempt(id: string) returns (attempt: nat)
      modifies this, store
      ensures Model() == Start(old(Model()), id)
      ensures attempt == connection.nextAttempt == old(connection).nextAttempt + 1
    {
      attempt := connection.nextAttempt + 1;
      connection := connection.(nextAttempt := attempt, history := connection.history + [Started(attempt, id)]);
      connection := connection.(pending := connection.pending[id := attempt]);
      ClearSubscriptionOwnership(id);
    }

    method FinishSubscribeAttempt(id: string, attempt: nat)
      modifies this`connection
      ensures connection == Finish(old(connection), id, attempt)
    {
      if IsCurrent(connection, id, attempt) {
        connection := connection.(pending := connection.pending - {id});
      }
    }

    method Send(reply: Reply)
      modifies this`connection
      ensures connection == old(connection).(out := old(connection).out + [reply])
    {
      connection := connection.(out := connection.out + [reply]);
    }

    /** Up to the first `await`. */
    method HandleSubscribe(id: string, path: string, args: string, known: bool)
      modifies this, store
      ensures Model() == DoSubscribe(old(Model()), id, path, args, known)
    {
      hide ClearOwnership;
      if connection.closed {
        return;
      }
      var attempt := StartSubscribeAttempt(id);
      if !known {
        FinishSubscribeAttempt(id, attempt);
        Send(Refused(attempt, id, false));
        return;
      }
      connection := connection.(tails := connection.tails[attempt := Tail(id, path, args, false)]);
    }

    /** A failed attempt answers only while it is current. */
    method Fail(id: string, attempt: nat, permanent: bool)
      modifies this`connection
      ensures connection == if IsCurrent(old(connection), id, attempt)
                            then EndTail(Refuse(old(connection), id, attempt, !permanent), attempt) else EndTail(old(connection), attempt)
    {
      if IsCurrent(connection, id, attempt) {
        FinishSubscribeAttempt(id, attempt);
        Send(Refused(attempt, id, !permanent));
      }
      connection := connection.(tails := connection.tails - {attempt});
    }

    /** After the context is resolved. */
    method ResumeWithContext(attempt: nat, outcome: Settled<()>)
      requires attempt in connection.tails
      modifies this`connection
      ensures Model() == AfterContext(old(Model()), attempt, outcome)
    {
      hide Refuse, EndTail;
      var t := connection.tails[attempt];
      match outcome
      case Threw(permanent) => Fail(t.id, attempt, permanent);
      case Done(_) =>
        if connection.closed || !IsCurrent(connection, t.id, attempt) {
          Bail(attempt);
        } else {
          connection := connection.(tails := connection.tails[attempt := t.(calling := true)]);
        }
    }

    method Bail(attempt: nat)
      modifies this`connection
      ensures connection == EndTail(old(connection), attempt)
    {
      connection := connection.(tails := connection.tails - {attempt});
    }

    /** After the query has run. */
    method ResumeWithQuery(attempt: nat, outcome: Settled<set<string>>)
      requires attempt in connection.tails
      modifies this, store
      ensures Model() == AfterQuery(old(Model()), who, attempt, outcome)
    {
      hide Refuse, EndTail;
      var t := connection.tails[attempt];
      match outcome
      case Threw(permanent) => Fail(t.id, attempt, permanent);
      case Done(tables) =>
        if connection.closed || !IsCurrent(connection, t.id, attempt) {
          Bail(attempt);
        } else {
          FinishSubscribeAttempt(t.id, attempt);
          store.Add(who, t.id, t.path, t.args, tables);
          connection := connection.(mySubIds := connection.mySubIds + {t.id});
          Send(Subscribed(attempt, t.id));
          Bail(attempt);
        }
    }

    method HandleUnsubscribe(id: string)
      modifies this, store
      ensures Model() == DoUnsubscribe(old(Model()), id)
    {
      if connection.closed {
        return;
      }
      connection := connection.(pending := connection.pending - {id}, history := connection.history + [Cancelled(id)]);
      ClearSubscriptionOwnership(id);
    }

    /** Remove every entry of this connection from the shared store, once. */
    method TearDown()
      modifies this, store
      ensures Model() == Teardown(old(Model()))
    {
      if connection.closed {
        return;
      }
      ghost var entries := store.entries;
      connection := connection.(closed := true, history := connection.history + [TornDown]);
      connection := connection.(pending := map[]);
      var waiting := connection.mySubIds;
      while waiting != {}
        invariant waiting <= connection.mySubIds
        invariant store.entries == entries - (connection.mySubIds - waiting) && store.instances == old(store.instances)
        invariant connection == old(connection).(closed := true, history := old(connection).history + [TornDown], pending := map[])
      {
        var id :| id in waiting;
        store.Remove(id);
        assert connection.mySubIds - (waiting - {id}) == connection.mySubIds - waiting + {id};
        waiting := waiting - {id};
      }
      assert connection.mySubIds - waiting == connection.mySubIds;
      connection := connection.(mySubIds := {});
    }
  }
}
