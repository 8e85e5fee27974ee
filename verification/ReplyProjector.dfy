/**
 * Reply context in place (packages/contracts/reply-context.ts:70-142): one
 * mutable key set per exchange, shared by every id its ask is known by, and
 * tied to the recursion of ReplySpec.
 */
module ReplyProjector {
  import opened Options
  import opened ReplySpec

  class KeySet {
    var keys: set<Key>

    constructor (keys: set<Key>)
      ensures this.keys == keys
    {
      this.keys := keys;
    }
  }

  ghost predicate Apart(cells: seq<KeySet>) { forall i, j :: 0 <= i < j < |cells| ==> cells[i] != cells[j] }

  /** Every id refers to the exchange its number stands for. */
  ghost predicate Numbered(exchanges: map<Id, KeySet>, asks: map<Id, nat>, cells: seq<KeySet>) {
    exchanges.Keys == asks.Keys && forall id :: id in asks ==> asks[id] < |cells| && exchanges[id] == cells[asks[id]]
  }

  class Projector {
    var contexts: map<Id, Ref>
    var messages: map<Id, nat>
    var agents: map<Id, nat>
    var origins: map<Id, Id>
    var exchanges: map<Id, KeySet>
    var context: KeySet
    var user: Option<Id>
    /** The exchanges in the order they began, and the numbers standing for references to them. */
    ghost var cells: seq<KeySet>
    ghost var asks: map<Id, nat>
    ghost var current: nat

    ghost predicate Shared()
      reads this
    {
      Apart(cells) && current < |cells| && context == cells[current] && Numbered(exchanges, asks, cells)
    }

    ghost function Sets(): (s: seq<set<Key>>)
      reads this`cells, cells
      ensures |s| == |cells| && forall i :: 0 <= i < |s| ==> s[i] == cells[i].keys
    {
      var c := cells;
      seq(|c|, i requires 0 <= i < |c| reads c => c[i].keys)
    }

    ghost function Contents(): (s: State)
      requires Shared()
      reads this, cells
      ensures Sound(s)
    {
      State(contexts, messages, agents, origins, asks, Sets(), current, user)
    }

    constructor ()
      ensures Shared() && fresh(cells) && Contents() == Empty
    {
      contexts, messages, agents, origins, exchanges, user := map[], map[], map[], map[], map[], None;
      var first := new KeySet({});
      context := first;
      cells, asks, current := [first], map[], 0;
      new;
      assert Sets() == [{}];
    }

    method UserRow(row: Row)
      requires Shared() && row.user
      modifies this
      ensures Shared() && cells == old(cells) + [context] && fresh(context)
      ensures Contents() == ReplySpec.UserRow(old(Contents()), row)
    {
      hide SetEach, RowKeys;
      var own, known := BeginExchange(row);
      Enter(row, own, known);
    }

    /** The new exchange becomes the present one, last in the order. */
    method Enter(row: Row, own: KeySet, known: map<Id, KeySet>)
      requires Shared() && own !in cells && known == SetEach(exchanges[row.id := own], row.aliasIds, own)
      modifies this`user, this`context, this`exchanges, this`cells, this`asks, this`current
      ensures Shared() && cells == old(cells) + [own] && context == own && user == Some(row.id)
              && current == |old(cells)|
      ensures asks == SetEach<nat>(old(asks)[row.id := |old(cells)|], row.aliasIds, |old(cells)|)
      ensures Sets() == old(Sets()) + [own.keys]
    {
      hide SetEach, Apart, Numbered;
      ghost var at: nat := |cells|;
      ghost var before := Sets();
      AsksNumbered(exchanges, asks, cells, own, row);
      user, context, exchanges := Some(row.id), own, known;
      cells := cells + [own];
      asks := SetEach<nat>(asks[row.id := at], row.aliasIds, at);
      current := at;
      assert forall i :: 0 <= i < at ==> Sets()[i] == before[i];
    }

    method BeginExchange(row: Row) returns (own: KeySet, known: map<Id, KeySet>)
      requires row.user
      modifies this`origins
      ensures fresh(own) && own.keys == RowKeys(row) && known == SetEach(exchanges[row.id := own], row.aliasIds, own)
      ensures origins == SetEach(old(origins), row.ownsAgentIds, row.id)
    {
      hide SetEach, MKeys, AKeys;
      own := new KeySet({M(row.id)});
      known := TakeAliases(own, exchanges[row.id := own], row.aliasIds);
      TakeOwned(own, row.ownsAgentIds, row.id);
    }

    /** An ask is known by its alias ids as well: each of them leads to the exchange it begins. */
    method TakeAliases(own: KeySet, known: map<Id, KeySet>, ids: seq<Id>) returns (after: map<Id, KeySet>)
      modifies own
      ensures own.keys == old(own.keys) + MKeys(ids) && after == SetEach(known, ids, own)
    {
      after := known;
      var i := 0;
      assert ids[..0] == [];
      while i < |ids|
        invariant 0 <= i <= |ids| && own.keys == old(own.keys) + MKeys(ids[..i])
                  && after == SetEach(known, ids[..i], own)
      {
        assert ids[..i + 1][..i] == ids[..i];
        own.keys := own.keys + {M(ids[i])};
        after := after[ids[i] := own];
        i := i + 1;
      }
      assert ids[..i] == ids;
    }

    /** The tasks an ask owns belong to its exchange from the start, with the ask as their origin. */
    method TakeOwned(own: KeySet, ids: seq<Id>, origin: Id)
      modifies own, this`origins
      ensures own.keys == old(own.keys) + AKeys(ids) && origins == SetEach(old(origins), ids, origin)
    {
      var i := 0;
      assert ids[..0] == [];
      while i < |ids|
        invariant 0 <= i <= |ids| && own.keys == old(own.keys) + AKeys(ids[..i])
                  && origins == SetEach(old(origins), ids[..i], origin)
      {
        assert ids[..i + 1][..i] == ids[..i];
        AKeysMore(ids, i);
        own.keys := own.keys + {A(ids[i])};
        origins := origins[ids[i] := origin];
        i := i + 1;
      }
      assert ids[..i] == ids;
    }

    /** The earlier exchanges a reply answers, as references to their shared sets; the present one is not among them. */
    method FindRejoined(answers: seq<Id>) returns (prior: seq<KeySet>)
      requires Shared()
      ensures var r := Rejoined(asks, current, answers);
              |prior| == |r|
              && forall i :: 0 <= i < |r| ==> r[i] < |cells| && prior[i] == cells[r[i]] && r[i] != current
    {
      prior := [];
      var i := 0;
      assert answers[..0] == [];
      while i < |answers|
        invariant 0 <= i <= |answers|
        invariant var r := Rejoined(asks, current, answers[..i]);
                  |prior| == |r|
                  && forall k :: 0 <= k < |r| ==> r[k] < |cells| && prior[k] == cells[r[k]] && r[k] != current
      {
        assert answers[..i + 1][..i] == answers[..i];
        if answers[i] in exchanges && exchanges[answers[i]] != context { prior := prior + [exchanges[answers[i]]]; }
        i := i + 1;
      }
      assert answers[..i] == answers;
    }

    /** The present exchange takes in everything of the earlier ones. */
    method Rejoin(prior: seq<KeySet>, ghost which: seq<nat>)
      requires Shared() && |which| == |prior|
      requires forall i :: 0 <= i < |which| ==> which[i] < |cells| && prior[i] == cells[which[i]] && which[i] != current
      modifies context
      ensures context.keys == old(context.keys) + UnionOf(old(Sets()), which)
    {
      ghost var sets := Sets();
      ghost var mine := context.keys;
      var i := 0;
      assert which[..0] == [];
      while i < |prior|
        invariant 0 <= i <= |prior|
        invariant context.keys == mine + UnionOf(sets, which[..i])
      {
        assert which[..i + 1][..i] == which[..i];
        assert prior[i] != context && prior[i].keys == sets[which[i]];
        context.keys := context.keys + prior[i].keys;
        i := i + 1;
      }
      assert which[..i] == which;
    }

    /** Every key goes to the present exchange and to each earlier one, however often that one is named. */
    method AddEverywhere(added: seq<Key>, prior: seq<KeySet>)
      requires context !in prior
      modifies context, prior
      ensures context.keys == old(context.keys) + set k <- added
      ensures forall c: KeySet :: c in prior ==> c.keys == old(c.keys) + set k <- added
    {
      ghost var sofar: set<Key> := {};
      var i := 0;
      while i < |added|
        invariant 0 <= i <= |added| && sofar == set k <- added[..i]
        invariant context.keys == old(context.keys) + sofar
        invariant forall c: KeySet :: c in prior ==> c.keys == old(c.keys) + sofar
      {
        assert added[..i + 1] == added[..i] + [added[i]];
        context.keys := context.keys + {added[i]};
        AddToEach(added[i], prior);
        sofar := sofar + {added[i]};
        i := i + 1;
      }
      assert added[..i] == added;
    }

    method AddToEach(key: Key, prior: seq<KeySet>)
      modifies prior
      ensures forall c: KeySet :: c in prior ==> c.keys == old(c.keys) + {key}
    {
      var j := 0;
      while j < |prior|
        invariant 0 <= j <= |prior|
        invariant forall c: KeySet :: c in prior ==> c.keys == old(c.keys) || c.keys == old(c.keys) + {key}
        invariant forall k :: 0 <= k < j ==> prior[k].keys == old(prior[k].keys) + {key}
      {
        prior[j].keys := prior[j].keys + {key};
        j := j + 1;
      }
    }

    method FindOrigin(answers: seq<Id>) returns (o: Option<Id>)
      requires exchanges.Keys == asks.Keys
      ensures o == Origin(asks, user, answers)
    {
      var i := 0;
      o := user;
      assert answers[0..] == answers;
      while i < |answers|
        invariant 0 <= i <= |answers| && o == user
        invariant FirstAsk(asks, answers) == FirstAsk(asks, answers[i..])
      {
        assert answers[i..][1..] == answers[i + 1..];
        if answers[i] in exchanges {
          o := Some(answers[i]);
          break;
        }
        i := i + 1;
      }
      if o == Some([]) { o := None; }
    }

    method MarkOrigins(owned: seq<Id>, origin: Id)
      modifies this`origins
      ensures origins == SetEach(old(origins), owned, origin)
    {
      var i := 0;
      assert owned[..0] == [];
      while i < |owned|
        invariant 0 <= i <= |owned| && origins == SetEach(old(origins), owned[..i], origin)
      {
        assert owned[..i + 1][..i] == owned[..i];
        origins := origins[owned[i] := origin];
        i := i + 1;
      }
      assert owned[..i] == owned;
    }

    method FindDistant(refs: seq<Ref>) returns (distant: seq<Ref>)
      ensures distant == Distant(refs, context.keys)
    {
      distant := [];
      var i := 0;
      assert refs[..0] == [];
      while i < |refs|
        invariant 0 <= i <= |refs| && distant == Distant(refs[..i], context.keys)
      {
        assert refs[..i + 1][..i] == refs[..i];
        if KeyOf(refs[i]) !in context.keys { distant := distant + [refs[i]]; }
        i := i + 1;
      }
      assert refs[..i] == refs;
    }

    /** The loop over the distant references, then the one over the asks they count for. */
    method CountDistant(distant: seq<Ref>)
      modifies this`messages, this`agents
      ensures agents == BumpEach(old(agents), Threads(distant))
      ensures messages == BumpEach(old(messages), Counted(distant, origins))
    {
      var counted := CountThreads(distant);
      var i := 0;
      assert counted[..0] == [];
      while i < |counted|
        invariant 0 <= i <= |counted| && messages == BumpEach(old(messages), counted[..i])
        invariant agents == BumpEach(old(agents), Threads(distant))
      {
        assert counted[..i + 1][..i] == counted[..i];
        messages := Bump(messages, counted[i]);
        i := i + 1;
      }
      assert counted[..i] == counted;
    }

    method CountThreads(distant: seq<Ref>) returns (counted: seq<Id>)
      modifies this`agents
      ensures agents == BumpEach(old(agents), Threads(distant)) && counted == Counted(distant, origins)
    {
      counted := [];
      var i := 0;
      assert distant[..0] == [];
      while i < |distant|
        invariant 0 <= i <= |distant| && counted == Counted(distant[..i], origins)
        invariant agents == BumpEach(old(agents), Threads(distant[..i]))
      {
        assert distant[..i + 1][..i] == distant[..i];
        ghost var threads := Threads(distant[..i]);
        var ref := distant[i];
        if ref.MessageRef? {
          assert threads + [] == threads;
          if ref.id !in counted { counted := counted + [ref.id]; }
        } else {
          agents := Bump(agents, ref.threadId);
          assert (threads + [ref.threadId])[..|threads|] == threads;
          if ref.threadId in origins {
            var ask := origins[ref.threadId];
            if ask != [] && ask !in counted { counted := counted + [ask]; }
          }
        }
        i := i + 1;
      }
      assert distant[..i] == distant;
    }

    /** What a reply shows and counts for, once its exchange is known. */
    method Report(row: Row)
      requires exchanges.Keys == asks.Keys
      modifies this`origins, this`contexts, this`agents, this`messages
      ensures var o := Origin(asks, user, row.answers); var distant := Distant(row.refs, context.keys);
              origins == (if o.None? then old(origins) else SetEach(old(origins), row.ownsAgentIds, o.value))
              && contexts
                 == (if Quote(distant).Some? then old(contexts)[row.id := Quote(distant).value] else old(contexts))
              && agents == BumpEach(old(agents), Threads(distant))
              && messages == BumpEach(old(messages), Counted(distant, origins))
    {
      hide BumpEach, Counted, Threads, Quote, Distant, Origin, SetEach;
      var origin := FindOrigin(row.answers);
      if origin.Some? { MarkOrigins(row.ownsAgentIds, origin.value); }
      var distant := FindDistant(row.refs);
      var quote := Quote(distant);
      if quote.Some? { contexts := contexts[row.id := quote.value]; }
      CountDistant(distant);
    }

    method AssistantRow(row: Row)
      requires Shared() && !row.user
      modifies this`origins, this`contexts, this`agents, this`messages, cells
      ensures Shared() && Contents() == ReplySpec.AssistantRow(old(Contents()), row)
    {
      hide BumpEach, Counted, Threads, Quote, Distant, Origin, SetEach, Rejoined, UnionOf, RowKeys;
      ghost var s0 := Contents();
      ghost var which := Rejoined(asks, current, row.answers);
      var prior := JoinExchanges(row.answers);
      ghost var near := context.keys;
      Report(row);
      Spread(row, prior, which);
      assert near == Near(s0, row.answers);
      assert Sets() == ReplySpec.AssistantRow(s0, row).sets;
    }

    /** Answering an older message merges that message's set into the present one. */
    method JoinExchanges(answers: seq<Id>) returns (prior: seq<KeySet>)
      requires Shared()
      modifies context
      ensures var r := Rejoined(asks, current, answers);
              |prior| == |r|
              && forall i :: 0 <= i < |r| ==> r[i] < |cells| && prior[i] == cells[r[i]] && r[i] != current
      ensures context.keys == Near(old(Contents()), answers)
    {
      hide Rejoined, UnionOf;
      ghost var s0 := Contents();
      prior := FindRejoined(answers);
      Rejoin(prior, Rejoined(asks, current, answers));
    }

    /** The reply becomes part of every exchange it belongs to. */
    method Spread(row: Row, prior: seq<KeySet>, ghost which: seq<nat>)
      requires Shared() && !row.user && |which| == |prior|
      requires forall i :: 0 <= i < |which| ==> which[i] < |cells| && prior[i] == cells[which[i]] && which[i] != current
      modifies cells
      ensures forall i :: 0 <= i < |cells| ==>
                cells[i].keys == if i == current || i in which then old(cells[i].keys) + RowKeys(row)
                  else old(cells[i].keys)
    {
      hide Added, RowKeys;
      assert forall i :: 0 <= i < |prior| ==> prior[i] in cells;
      assert context in cells;
      AddEverywhere(Added(row), prior);
      AddedKeys(row);
      forall i | 0 <= i < |cells|
        ensures cells[i].keys == if i == current || i in which then old(cells[i].keys) + RowKeys(row)
                else old(cells[i].keys)
      {
        if i != current && i in which {
          var k :| 0 <= k < |which| && which[k] == i;
          assert prior[k] == cells[i];
        } else if i != current {
          assert cells[i] !in prior;
        }
      }
    }

    method Take(row: Row)
      requires Shared()
      modifies this, cells
      ensures Shared() && Contents() == Step(old(Contents()), row)
      ensures cells == old(cells) || (cells == old(cells) + [context] && fresh(context))
    {
      if row.hidden { return; }
      if row.user { UserRow(row); } else { AssistantRow(row); }
    }
  }

  /** References and numbers stay in step when a new ask is recorded. */
  lemma {:induction false} AsksNumbered(exchanges: map<Id, KeySet>, asks: map<Id, nat>,
                                        cells: seq<KeySet>, own: KeySet, row: Row)
    requires Apart(cells) && own !in cells && Numbered(exchanges, asks, cells)
    ensures var at: nat := |cells|; var more := cells + [own];
            Apart(more)
              && Numbered(SetEach(exchanges[row.id := own], row.aliasIds, own),
                          SetEach<nat>(asks[row.id := at], row.aliasIds, at), more)
  {
    hide SetEach;
    var at: nat := |cells|;
    SetEachValues(exchanges[row.id := own], row.aliasIds, own);
    SetEachValues<nat>(asks[row.id := at], row.aliasIds, at);
  }

  lemma {:induction false} AKeysMore(ids: seq<Id>, i: nat)
    requires i < |ids|
    ensures AKeys(ids[..i + 1]) == AKeys(ids[..i]) + {A(ids[i])}
  {
    assert forall k :: 0 <= k < i ==> ids[..i + 1][k] == ids[..i][k];
    assert ids[..i + 1][i] == ids[i];
    forall key | key in AKeys(ids[..i]) ensures key in AKeys(ids[..i + 1]) {
      var k :| 0 <= k < i && key == A(ids[..i][k]);
      assert key == A(ids[..i + 1][k]);
    }
    assert A(ids[..i + 1][i]) in AKeys(ids[..i + 1]);
  }

  lemma {:induction false} AddedKeys(row: Row)
    requires !row.user
    ensures (set k <- Added(row)) == RowKeys(row)
  {
  }

  method ProjectRows(rows: seq<Row>) returns (p: Projector)
    ensures p.Shared() && p.Contents() == Project(rows)
  {
    hide Step;
    p := new Projector();
    var i := 0;
    assert rows[..0] == [];
    while i < |rows|
      invariant 0 <= i <= |rows| && p.Shared() && fresh(p) && fresh(p.cells)
      invariant p.Contents() == Project(rows[..i])
    {
      assert rows[..i + 1][..i] == rows[..i];
      p.Take(rows[i]);
      i := i + 1;
    }
    assert rows[..i] == rows;
  }
}
