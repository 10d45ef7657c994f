/** Who may see which ledger row: one by one through `get`, or by listing an account. */
module Visibility {
  import opened Bank
  import opened Books

  datatype Answer<T> = Granted(value: T) | Missing | Denied

  /** The actor owns this account row, by plain equality of the customer ids. */
  predicate Owns(db: Db, actor: Actor, id: Key)
  {
    id in db.accounts && actor.customer == Some(db.accounts[id].customer)
  }

  /** Some end of the row with a non-empty id is an account of the actor. */
  predicate Party(db: Db, actor: Actor, row: Row)
  {
    || (row.source != "" && Owns(db, actor, row.source))
    || (row.target.Some? && row.target.value != "" && Owns(db, actor, row.target.value))
  }

  /** Looks at the sending account, then the receiving one, and returns at the first the actor owns. */
  method EnsureActorSees(db: Db, actor: Actor, row: Row) returns (allowed: bool)
    ensures allowed <==>
              || actor.role == "ADMIN"
              || (row.source != "" && row.source in db.accounts
                  && actor.customer == Some(db.accounts[row.source].customer))
              || (row.target.Some? && row.target.value != "" && row.target.value in db.accounts
                  && actor.customer == Some(db.accounts[row.target.value].customer))
  {
    if actor.role == "ADMIN" {
      return true;
    }
    var ends := [Some(row.source), row.target];
    for i := 0 to |ends|
      invariant i > 0 ==> row.source == "" || !Owns(db, actor, row.source)
      invariant i > 1 ==> row.target == None || row.target.value == "" || !Owns(db, actor, row.target.value)
    {
      if ends[i].Some? && ends[i].value != "" {
        if ends[i].value in db.accounts && Some(db.accounts[ends[i].value].customer) == actor.customer {
          return true;
        }
      }
    }
    return false;
  }

  /** A row that is there is granted, unless the trap is set, exactly if it is in a list the actor may read. */
  method Get(db: Db, txn: Key, actor: Actor) returns (r: Answer<Row>)
    ensures r == ViewOf(db, txn, actor)
    ensures Sound(db) && txn in db.ledger && !EmptyIdTrap(db, actor, db.ledger[txn]) ==>
              (r == Granted(db.ledger[txn]) <==> Listed(db, txn, actor))
  {
    if Sound(db) && txn in db.ledger { VisibilityAgreesExactly(db, txn, actor); }
    if txn !in db.ledger {
      return Missing;
    }
    var allowed := EnsureActorSees(db, actor, db.ledger[txn]);
    r := if allowed then Granted(db.ledger[txn]) else Denied;
  }

  function ViewOf(db: Db, txn: Key, actor: Actor): Answer<Row>
  {
    if txn !in db.ledger then Missing
    else if actor.role == "ADMIN" || Party(db, actor, db.ledger[txn]) then Granted(db.ledger[txn])
    else Denied
  }

  /** Looking up a row: missing, else granted exactly to admins and to the owners of an end with a non-empty id. */
  lemma LookupExactly(db: Db, txn: Key, actor: Actor)
    ensures ViewOf(db, txn, actor) == Missing <==> txn !in db.ledger
    ensures txn in db.ledger ==>
              var row := db.ledger[txn];
              && ViewOf(db, txn, actor) in {Granted(row), Denied}
              && (ViewOf(db, txn, actor) == Granted(row) <==>
                    || actor.role == "ADMIN"
                    || (exists id :: id != "" && (id == row.source || Some(id) == row.target) && id in db.accounts
                                     && actor.customer == Some(db.accounts[id].customer)))
  {
    if txn in db.ledger {
      var row := db.ledger[txn];
      if Party(db, actor, row) {
        var id := if row.source != "" && Owns(db, actor, row.source) then row.source else row.target.value;
        assert id != "" && (id == row.source || Some(id) == row.target);
      }
    }
  }

  /**
   * Listing an account: missing, else granted exactly to admins and to the owner with a non-empty customer id, and then
   * the rows are exactly those paid from or to the account.
   */
  lemma ListingExactly(db: Db, id: Key, actor: Actor)
    ensures ListByAccount(db, id, actor) == Missing <==> id !in db.accounts
    ensures id in db.accounts ==>
              var customer := db.accounts[id].customer;
              if actor.role == "ADMIN" || (customer != "" && actor.customer == Some(customer))
              then ListByAccount(db, id, actor) ==
                   Granted(set t | t in db.ledger && (db.ledger[t].source == id || db.ledger[t].target == Some(id)))
              else ListByAccount(db, id, actor) == Denied
  {
    assert (set t | t in db.ledger && Touches(db.ledger[t], id))
        == (set t | t in db.ledger && (db.ledger[t].source == id || db.ledger[t].target == Some(id)));
  }

  predicate OwnerOrAdmin(actor: Actor, customer: string)
  {
    actor.role == "ADMIN" || (customer != "" && actor.customer == Some(customer))
  }

  /** The rows that `list_by_account` returns, as the set of their ids. */
  function ListByAccount(db: Db, id: Key, actor: Actor): Answer<set<Key>>
  {
    if id !in db.accounts then Missing
    else if !OwnerOrAdmin(actor, db.accounts[id].customer) then Denied
    else Granted(set t | t in db.ledger && Touches(db.ledger[t], id))
  }

  /** The row shows up in the list of some account the actor may list. */
  ghost predicate Listed(db: Db, txn: Key, actor: Actor)
  {
    exists id :: id in db.accounts && var l := ListByAccount(db, id, actor); l.Granted? && txn in l.value
  }

  /**
   * An empty id stands for "no id" in one of the two checks and for a value in the other. The trap is a row with an end
   * that has an id, on an account of the customer "", seen by an actor with that customer id; or a row with an end ""
   * on the actor's account of that id and no other end on an account of the actor.
   */
  predicate EmptyIdTrap(db: Db, actor: Actor, row: Row)
  {
    && actor.role != "ADMIN" && actor.customer.Some?
    && var customer := actor.customer.value;
       var source := row.source != "" && OfCustomer(db, row.source, customer);
       var target := row.target.Some? && row.target.value != "" && OfCustomer(db, row.target.value, customer);
       if customer == "" then source || target
       else
         && !source && !target && OfCustomer(db, "", customer)
         && (row.source == "" || row.target == Some(""))
  }

  predicate OfCustomer(db: Db, id: Key, customer: string)
  {
    id in db.accounts && db.accounts[id].customer == customer
  }

  lemma ListedIff(db: Db, txn: Key, actor: Actor)
    requires Sound(db) && txn in db.ledger
    ensures var row := db.ledger[txn];
            Listed(db, txn, actor) <==>
              || actor.role == "ADMIN"
              || (actor.customer != Some("") &&
                  (Owns(db, actor, row.source) || (row.target.Some? && Owns(db, actor, row.target.value))))
  {
    var row := db.ledger[txn];
    forall id | id in db.accounts && Touches(row, id) && OwnerOrAdmin(actor, db.accounts[id].customer)
      ensures Listed(db, txn, actor)
    {
      var l := ListByAccount(db, id, actor);
      assert l.Granted? && txn in l.value;
    }
    assert Touches(row, row.source) && row.source in db.accounts;
    if row.target.Some? { assert Touches(row, row.target.value); }
  }

  /** In every state that meets the schema's constraints, the two ways of looking agree unless the trap is set. */
  lemma VisibilityAgreesExactly(db: Db, txn: Key, actor: Actor)
    requires Sound(db) && txn in db.ledger
    ensures (ViewOf(db, txn, actor).Granted? <==> Listed(db, txn, actor)) <==> !EmptyIdTrap(db, actor, db.ledger[txn])
  {
    ListedIff(db, txn, actor);
  }

  /**
   * After any mixture of service calls, an actor with a customer id may get a ledger row exactly when it appears in
   * the list of some existing account that they may list, given only that no id in use is the empty string.
   */
  lemma VisibilityAgrees(db: Db, ops: seq<Op>, txn: Key, actor: Actor)
    requires Sound(db) && actor.customer != Some("")
    requires "" !in Play(db, ops).accounts && txn in Play(db, ops).ledger
    ensures ViewOf(Play(db, ops), txn, actor).Granted? <==> Listed(Play(db, ops), txn, actor)
  {
    PlaySound(db, ops);
    VisibilityAgreesExactly(Play(db, ops), txn, actor);
  }

  /** Both ways the trap can be set: an account with an empty id, and an actor and account with an empty customer id. */
  lemma TrapsExist(amount: int)
    requires amount > 0
    ensures var db := Db(map["" := Account("c1", 0)], map["t" := Row("", None, Transfer, amount, 0)]);
            var actor := Actor("USER", Some("c1"));
            Sound(db) && ViewOf(db, "t", actor) == Denied && Listed(db, "t", actor)
    ensures var db := Db(map["x" := Account("", 0)], map["t" := Row("x", None, Transfer, amount, 0)]);
            var actor := Actor("USER", Some(""));
            Sound(db) && ViewOf(db, "t", actor).Granted? && !Listed(db, "t", actor)
  {
    var db := Db(map["" := Account("c1", 0)], map["t" := Row("", None, Transfer, amount, 0)]);
    ListedIff(db, "t", Actor("USER", Some("c1")));
  }
}
