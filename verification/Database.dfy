/** The two tables behind PGClient and the statements it sends, as operations on values. */
module Database {

  /** NULL is the missing value of a column. */
  datatype Nullable<T> = Null | Just(value: T)

  datatype Exchange = Exchange(id: int, name: Nullable<string>)

  datatype Row = Row(id: int, payload: string, createdAt: int, exchange: Nullable<int>)

  /** exchanges never changes; messages grows by committed inserts, in commit order. */
  datatype Tables = Tables(exchanges: seq<Exchange>, messages: seq<Row>)

  /** The filter value that queryExchange takes for "every message". */
  const NO_FILTER := -1

  /** PRIMARY KEY and UNIQUE on Exchanges. */
  predicate UniqueKeys(exchanges: seq<Exchange>)
  {
    forall i, j :: 0 <= i < j < |exchanges| ==>
      && exchanges[i].id != exchanges[j].id
      && (exchanges[i].name == exchanges[j].name ==> exchanges[i].name == Null)
  }

  /** SERIAL ids start at 1. */
  predicate SerialIds(exchanges: seq<Exchange>)
  {
    forall i :: 0 <= i < |exchanges| ==> exchanges[i].id > 0
  }

  predicate Named(exchanges: seq<Exchange>, name: string)
  {
    exists i :: 0 <= i < |exchanges| && exchanges[i].name == Just(name)
  }

  predicate HasId(exchanges: seq<Exchange>, id: int)
  {
    exists i :: 0 <= i < |exchanges| && exchanges[i].id == id
  }

  /** FOREIGN KEY: the exchange of a row is NULL or exists. */
  predicate ForeignKeys(db: Tables)
  {
    forall k :: 0 <= k < |db.messages| ==>
      db.messages[k].exchange == Null || HasId(db.exchanges, db.messages[k].exchange.value)
  }

  predicate Schema(db: Tables)
  {
    UniqueKeys(db.exchanges) && SerialIds(db.exchanges) && ForeignKeys(db)
  }

  /** SELECT ID FROM Exchanges WHERE exchange_name = name: the first row of the result, if any. */
  function Lookup(exchanges: seq<Exchange>, name: string): (id: Nullable<int>)
    ensures id == Null <==> !Named(exchanges, name)
    ensures id != Null ==> exists i :: 0 <= i < |exchanges| && exchanges[i] == Exchange(id.value, Just(name))
  {
    if exchanges == [] then Null
    else if exchanges[0].name == Just(name) then
      assert exchanges[0] == Exchange(exchanges[0].id, Just(name));
      Just(exchanges[0].id)
    else
      var id := Lookup(exchanges[1..], name);
      assert forall i :: 0 < i < |exchanges| ==> exchanges[i] == exchanges[1..][i - 1];
      assert forall i :: 0 <= i < |exchanges| - 1 ==> exchanges[1..][i] == exchanges[i + 1];
      id
  }

  /** The WHERE clause of queryExchange. */
  predicate Matches(row: Row, filter: int)
  {
    filter == NO_FILTER || row.exchange == Just(filter)
  }

  /** SELECT ... FROM Messages [WHERE exchange_id = filter], in table order. */
  function Select(messages: seq<Row>, filter: int): seq<Row>
  {
    if messages == [] then [] else
      var last := messages[|messages| - 1];
      Select(messages[..|messages| - 1], filter) + (if Matches(last, filter) then [last] else [])
  }

  /** Row belongs to an exchange called name: the condition of the join of Messages with Exchanges. */
  predicate JoinsOn(exchanges: seq<Exchange>, row: Row, name: string)
  {
    exists i :: 0 <= i < |exchanges| && exchanges[i].name == Just(name) && row.exchange == Just(exchanges[i].id)
  }

  /** Messages JOIN Exchanges ON exchange_id = Exchanges.ID WHERE exchange_name = name, in table order. */
  function JoinByName(exchanges: seq<Exchange>, messages: seq<Row>, name: string): seq<Row>
  {
    if messages == [] then [] else
      var last := messages[|messages| - 1];
      JoinByName(exchanges, messages[..|messages| - 1], name) + (if JoinsOn(exchanges, last, name) then [last] else [])
  }

  /** Membership: Select returns exactly the matching rows. */
  lemma {:induction false} SelectMembers(messages: seq<Row>, filter: int, row: Row)
    ensures row in Select(messages, filter) <==> row in messages && Matches(row, filter)
  {
    if messages != [] {
      SelectMembers(messages[..|messages| - 1], filter, row);
      assert messages == messages[..|messages| - 1] + [messages[|messages| - 1]];
    }
  }

  lemma {:induction false} SelectSplit(a: seq<Row>, b: seq<Row>, filter: int)
    ensures Select(a + b, filter) == Select(a, filter) + Select(b, filter)
  {
    if b == [] {
      assert a + b == a;
    } else {
      var front := b[..|b| - 1];
      SelectSplit(a, front, filter);
      assert (a + b)[..|a + b| - 1] == a + front;
    }
  }

  lemma {:induction false} SelectAll(messages: seq<Row>)
    ensures Select(messages, NO_FILTER) == messages
  {
    if messages != [] {
      SelectAll(messages[..|messages| - 1]);
    }
  }

  lemma UniqueName(exchanges: seq<Exchange>, row: Row, name: string, id: int)
    requires UniqueKeys(exchanges) && Lookup(exchanges, name) == Just(id)
    ensures JoinsOn(exchanges, row, name) <==> row.exchange == Just(id)
  {
    var i :| 0 <= i < |exchanges| && exchanges[i] == Exchange(id, Just(name));
    if JoinsOn(exchanges, row, name) {
      var j :| 0 <= j < |exchanges| && exchanges[j].name == Just(name) && row.exchange == Just(exchanges[j].id);
      assert i == j;
    }
  }

  predicate AllOn(messages: seq<Row>, id: int)
  {
    forall k :: 0 <= k < |messages| ==> messages[k].exchange == Just(id)
  }

  /** The join on a name is everything exactly if every message is on that exchange. */
  lemma {:induction false} JoinIsAll(exchanges: seq<Exchange>, messages: seq<Row>, name: string, id: int)
    requires UniqueKeys(exchanges) && Lookup(exchanges, name) == Just(id)
    ensures |JoinByName(exchanges, messages, name)| <= |messages|
    ensures |JoinByName(exchanges, messages, name)| == |messages| <==> AllOn(messages, id)
    ensures JoinByName(exchanges, messages, name) == messages <==> AllOn(messages, id)
  {
    if messages != [] {
      var front, last := messages[..|messages| - 1], messages[|messages| - 1];
      JoinIsAll(exchanges, front, name, id);
      UniqueName(exchanges, last, name, id);
      assert messages == front + [last];
      assert AllOn(messages, id) <==> AllOn(front, id) && last.exchange == Just(id) by {
        assert forall k :: 0 <= k < |front| ==> front[k] == messages[k];
      }
    }
  }

  /** Filtering by an id other than the reserved one gives the join. */
  lemma {:induction false} FilterIsJoin(exchanges: seq<Exchange>, messages: seq<Row>, name: string, id: int)
    requires UniqueKeys(exchanges) && Lookup(exchanges, name) == Just(id) && id != NO_FILTER
    ensures Select(messages, id) == JoinByName(exchanges, messages, name)
  {
    if messages != [] {
      FilterIsJoin(exchanges, messages[..|messages| - 1], name, id);
      UniqueName(exchanges, messages[|messages| - 1], name, id);
    }
  }

  /** Resolving the name to an id and filtering by the id gives the join, for every table, exactly if the id is not
      the reserved filter value or every message belongs to that exchange anyway. */
  lemma TwoStepLookup(exchanges: seq<Exchange>, messages: seq<Row>, name: string, id: int)
    requires UniqueKeys(exchanges) && Lookup(exchanges, name) == Just(id)
    ensures Select(messages, id) == JoinByName(exchanges, messages, name) <==> id != NO_FILTER || AllOn(messages, id)
  {
    if id == NO_FILTER {
      SelectAll(messages);
      JoinIsAll(exchanges, messages, name, id);
    } else {
      FilterIsJoin(exchanges, messages, name, id);
    }
  }

  /** With serial ids the two-step lookup is the join. */
  lemma LookupEqualsJoin(db: Tables, name: string)
    requires Schema(db) && Named(db.exchanges, name)
    ensures Lookup(db.exchanges, name) != Null
    ensures Select(db.messages, Lookup(db.exchanges, name).value) == JoinByName(db.exchanges, db.messages, name)
  {
    var id := Lookup(db.exchanges, name).value;
    var i :| 0 <= i < |db.exchanges| && db.exchanges[i] == Exchange(id, Just(name));
    assert id > 0;
    TwoStepLookup(db.exchanges, db.messages, name, id);
  }

  /** The rows of every exchange, one exchange after the other. */
  function PerExchange(exchanges: seq<Exchange>, messages: seq<Row>): multiset<Row>
  {
    if exchanges == [] then multiset{} else
      PerExchange(exchanges[..|exchanges| - 1], messages)
      + multiset(Select(messages, exchanges[|exchanges| - 1].id))
  }

  function WithoutExchange(messages: seq<Row>): seq<Row>
  {
    if messages == [] then [] else
      var last := messages[|messages| - 1];
      WithoutExchange(messages[..|messages| - 1]) + (if last.exchange == Null then [last] else [])
  }

  function Single(row: Row, here: bool): multiset<Row>
  {
    if here then multiset{row} else multiset{}
  }

  lemma SelectGrows(front: seq<Row>, last: Row, filter: int)
    ensures multiset(Select(front + [last], filter))
      == multiset(Select(front, filter)) + Single(last, Matches(last, filter))
  {
    assert (front + [last])[..|front|] == front;
  }

  lemma LastExchange(exchanges: seq<Exchange>, id: int)
    requires exchanges != [] && UniqueKeys(exchanges)
    ensures var before, e := exchanges[..|exchanges| - 1], exchanges[|exchanges| - 1];
            && (HasId(exchanges, id) <==> id == e.id || HasId(before, id))
            && !HasId(before, e.id)
  {
    var before := exchanges[..|exchanges| - 1];
    if HasId(before, id) {
      var i :| 0 <= i < |before| && before[i].id == id;
      assert exchanges[i].id == id;
    }
    if HasId(exchanges, id) {
      var i :| 0 <= i < |exchanges| && exchanges[i].id == id;
      assert i < |before| ==> before[i].id == id;
    }
  }

  /** Adding one message adds it once to the rows of its exchange, and to no other exchange. */
  lemma {:induction false} PerExchangeGrows(exchanges: seq<Exchange>, front: seq<Row>, last: Row)
    requires UniqueKeys(exchanges) && SerialIds(exchanges)
    ensures PerExchange(exchanges, front + [last]) ==
            PerExchange(exchanges, front) + Single(last, last.exchange != Null && HasId(exchanges, last.exchange.value))
  {
    if exchanges != [] {
      var before, e := exchanges[..|exchanges| - 1], exchanges[|exchanges| - 1];
      PerExchangeGrows(before, front, last);
      SelectGrows(front, last, e.id);
      var here := Matches(last, e.id);
      var there := last.exchange != Null && HasId(before, last.exchange.value);
      if last.exchange != Null {
        LastExchange(exchanges, last.exchange.value);
      }
      Interchange(PerExchange(before, front), multiset(Select(front, e.id)), Single(last, here), Single(last, there));
      EitherOr(Single(last, here), Single(last, there), last, here, there);
    }
  }

  lemma EitherOr(x: multiset<Row>, y: multiset<Row>, row: Row, here: bool, there: bool)
    requires x == Single(row, here) && y == Single(row, there) && !(here && there)
    ensures x + y == Single(row, here || there)
  {
  }

  lemma Interchange(a: multiset<Row>, b: multiset<Row>, x: multiset<Row>, y: multiset<Row>)
    ensures (a + y) + (b + x) == (a + b) + (x + y)
  {
  }

  lemma {:induction false} NoExchangesNoRows(exchanges: seq<Exchange>)
    ensures PerExchange(exchanges, []) == multiset{}
  {
    if exchanges != [] {
      NoExchangesNoRows(exchanges[..|exchanges| - 1]);
    }
  }

  /** The unfiltered query is partitioned by the exchanges: each of its rows is returned by the query on exactly one
      exchange, or has no exchange. */
  lemma {:induction false} ExchangesPartitionMessages(db: Tables)
    requires Schema(db)
    ensures multiset(Select(db.messages, NO_FILTER)) ==
            PerExchange(db.exchanges, db.messages) + multiset(WithoutExchange(db.messages))
    decreases |db.messages|
  {
    SelectAll(db.messages);
    if db.messages == [] {
      NoExchangesNoRows(db.exchanges);
    } else {
      var front, last := db.messages[..|db.messages| - 1], db.messages[|db.messages| - 1];
      assert db.messages == front + [last];
      var smaller := Tables(db.exchanges, front);
      assert ForeignKeys(smaller) by {
        forall k | 0 <= k < |front|
          ensures front[k].exchange == Null || HasId(db.exchanges, front[k].exchange.value)
        {
          assert front[k] == db.messages[k];
        }
      }
      ExchangesPartitionMessages(smaller);
      SelectAll(front);
      PerExchangeGrows(db.exchanges, front, last);
      assert multiset(db.messages) == multiset(front) + multiset{last};
      assert db.messages[|db.messages| - 1].exchange == Null || HasId(db.exchanges, last.exchange.value);
      OneMore(multiset(front), PerExchange(db.exchanges, front), multiset(WithoutExchange(front)), last,
              last.exchange == Null);
    }
  }

  lemma OneMore(all: multiset<Row>, a: multiset<Row>, b: multiset<Row>, last: Row, right: bool)
    requires all == a + b
    ensures all + multiset{last} == (a + Single(last, !right)) + (b + Single(last, right))
  {
  }
}
