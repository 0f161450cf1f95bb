/**
 * Properties of the vote primitives of `Poll` (poll.py:61-139): what
 * `add_vote`, `del_vote` and `vote` refuse, what they change, that they
 * change nothing but votes, and that `vote` keeps the single-active-vote rule.
 */
module Voting {
  import opened PollModel

  // ---------------------------------------------------------------------------
  // Votes are the only thing the vote primitives touch

  lemma WithVotesKeepsShape(records: seq<PollRecord>, i: nat, k: nat, votes: seq<Nick>)
    requires i < |records| && k < |records[i].options|
    ensures SameShape(records, records[i := WithVotes(records[i], k, votes)])
  {
  }

  lemma SameShapeTransitive(a: seq<PollRecord>, b: seq<PollRecord>, c: seq<PollRecord>)
    requires SameShape(a, b) && SameShape(b, c)
    ensures SameShape(a, c)
  {
  }

  /** `find_one` by name sees the same document in two collections that differ only in votes. */
  lemma SameShapeFind(a: seq<PollRecord>, b: seq<PollRecord>, name: string)
    requires SameShape(a, b)
    ensures Find(a, name) == Find(b, name)
  {
    forall j | 0 <= j < |a|
      ensures a[j].name == b[j].name
    {
      assert a[j].(options := []).name == b[j].(options := []).name;
    }
  }

  lemma SameOptionShapeFirstIndexed(x: seq<PollOption>, y: seq<PollOption>, index: int)
    requires SameOptionShape(x, y)
    ensures FirstIndexed(x, index) == FirstIndexed(y, index)
  {
  }

  /** With labels `0 .. n-1`, the option labelled `t` is the `t`-th one. */
  lemma FirstIndexedAtPosition(options: seq<PollOption>, t: int)
    requires IndexedByPosition(options) && 0 <= t < |options|
    ensures FirstIndexed(options, t) == Some(t)
  {
    assert options[t].index == t;
    var r := FirstIndexed(options, t);
    if r.Some? {
      assert options[r.value].index == r.value;
    }
  }

  /**
   * Once `get_poll` found the document at `i` and that document has an option
   * labelled `index`, the update filter `{"name": name, "options.index": index}`
   * designates that same document.
   */
  lemma UpdateTargetsFound(records: seq<PollRecord>, name: string, index: int)
    requires Find(records, name).Some?
    requires FirstIndexed(records[Find(records, name).value].options, index).Some?
    ensures FindWithIndex(records, name, index) == Find(records, name)
  {
  }

  lemma AddVoteKeepsShape(records: seq<PollRecord>, user: Nick, index: int, name: string)
    ensures SameShape(records, AddVoteStep(records, user, index, name).records)
  {
    match FindWithIndex(records, name, index)
    case None =>
    case Some(i) =>
      WithVotesKeepsShape(records, i, FirstIndexed(records[i].options, index).value,
        records[i].options[FirstIndexed(records[i].options, index).value].votes + [user]);
  }

  lemma DelVoteKeepsShape(records: seq<PollRecord>, user: Nick, index: int, name: string)
    ensures SameShape(records, DelVoteStep(records, user, index, name).records)
  {
    match FindWithIndex(records, name, index)
    case None =>
    case Some(i) =>
      var k := FirstIndexed(records[i].options, index).value;
      WithVotesKeepsShape(records, i, k, Remove(records[i].options[k].votes, user));
  }

  /** `vote` changes votes and nothing else: names, titles, flags and option labels survive. */
  lemma VoteKeepsShape(records: seq<PollRecord>, user: Nick, index: int, name: string)
    ensures SameShape(records, VoteStep(records, user, index, name).records)
  {
    match Find(records, name)
    case None =>
    case Some(i) =>
      if records[i].open && FirstIndexed(records[i].options, index).Some? {
        var cleared := Withdrawn(records, user, name, records[i].options);
        match HolderOf(records[i].options, user) {
          case None =>
          case Some(h) => DelVoteKeepsShape(records, user, records[i].options[h].index, name);
        }
        AddVoteKeepsShape(cleared, user, index, name);
        SameShapeTransitive(records, cleared, AddVoteStep(cleared, user, index, name).records);
      }
  }

  // ---------------------------------------------------------------------------
  // add_vote (poll.py:77-97)

  /** The four refusals of `add_vote`, checked in this order; a refusal changes nothing. */
  lemma AddVoteRefusals(records: seq<PollRecord>, user: Nick, index: int, name: string)
    ensures var r := AddVoteStep(records, user, index, name);
      && (r.status.Failure? ==> r.records == records)
      && (r.status == Failure(NoSuchPoll) <==> Find(records, name).None?)
      && (r.status == Failure(PollClosed) <==>
            Find(records, name).Some? && !records[Find(records, name).value].open)
      && (r.status == Failure(NoSuchIndex) <==>
            Find(records, name).Some? && records[Find(records, name).value].open
            && FirstIndexed(records[Find(records, name).value].options, index).None?)
      && (r.status == Failure(AlreadyVoted) <==>
            Find(records, name).Some? && records[Find(records, name).value].open
            && FirstIndexed(records[Find(records, name).value].options, index).Some?
            && user in records[Find(records, name).value]
                         .options[FirstIndexed(records[Find(records, name).value].options, index).value].votes)
      && (r.status.Success? || r.status.error in {NoSuchPoll, PollClosed, NoSuchIndex, AlreadyVoted})
  {
  }

  /**
   * When every check passes, `add_vote` appends `user` to the votes of the
   * option it checked, in the document it checked, and changes nothing else.
   */
  lemma AddVoteAppends(records: seq<PollRecord>, user: Nick, index: int, name: string, i: nat, k: nat)
    requires Find(records, name) == Some(i) && records[i].open
    requires FirstIndexed(records[i].options, index) == Some(k)
    requires user !in records[i].options[k].votes
    ensures AddVoteStep(records, user, index, name)
      == Step(Success, records[i := WithVotes(records[i], k, records[i].options[k].votes + [user])])
  {
    UpdateTargetsFound(records, name, index);
  }

  // ---------------------------------------------------------------------------
  // del_vote (poll.py:99-119)

  /** The four refusals of `del_vote`, checked in this order; a refusal changes nothing. */
  lemma DelVoteRefusals(records: seq<PollRecord>, user: Nick, index: int, name: string)
    ensures var r := DelVoteStep(records, user, index, name);
      && (r.status.Failure? ==> r.records == records)
      && (r.status == Failure(NoSuchPoll) <==> Find(records, name).None?)
      && (r.status == Failure(PollClosed) <==>
            Find(records, name).Some? && !records[Find(records, name).value].open)
      && (r.status == Failure(NoSuchIndex) <==>
            Find(records, name).Some? && records[Find(records, name).value].open
            && FirstIndexed(records[Find(records, name).value].options, index).None?)
      && (r.status == Failure(HaventVoted) <==>
            Find(records, name).Some? && records[Find(records, name).value].open
            && FirstIndexed(records[Find(records, name).value].options, index).Some?
            && user !in records[Find(records, name).value]
                          .options[FirstIndexed(records[Find(records, name).value].options, index).value].votes)
      && (r.status.Success? || r.status.error in {NoSuchPoll, PollClosed, NoSuchIndex, HaventVoted})
  {
  }

  /**
   * When every check passes, `del_vote` removes every occurrence of `user`
   * from the option it checked and changes nothing else.
   */
  lemma DelVoteRemoves(records: seq<PollRecord>, user: Nick, index: int, name: string, i: nat, k: nat)
    requires Find(records, name) == Some(i) && records[i].open
    requires FirstIndexed(records[i].options, index) == Some(k)
    requires user in records[i].options[k].votes
    ensures DelVoteStep(records, user, index, name)
      == Step(Success, records[i := WithVotes(records[i], k, Remove(records[i].options[k].votes, user))])
  {
    UpdateTargetsFound(records, name, index);
  }

  lemma {:induction false} RemoveAppended(votes: seq<Nick>, user: Nick)
    ensures Remove(votes + [user], user) == Remove(votes, user)
  {
    if |votes| == 0 {
      assert votes + [user] == [user];
      assert [user][1..] == [];
    } else {
      assert (votes + [user])[1..] == votes[1..] + [user];
      RemoveAppended(votes[1..], user);
    }
  }

  lemma WithVotesTwice(p: PollRecord, k: nat, first: seq<Nick>, second: seq<Nick>)
    requires k < |p.options|
    ensures WithVotes(WithVotes(p, k, first), k, second) == WithVotes(p, k, second)
  {
    assert WithVotes(WithVotes(p, k, first), k, second).options == WithVotes(p, k, second).options;
  }

  lemma WithSameVotes(p: PollRecord, k: nat)
    requires k < |p.options|
    ensures WithVotes(p, k, p.options[k].votes) == p
  {
    assert WithVotes(p, k, p.options[k].votes).options == p.options;
  }

  /** `del_vote` undoes a successful `add_vote` of the same user on the same option. */
  lemma DelVoteUndoesAddVote(records: seq<PollRecord>, user: Nick, index: int, name: string)
    requires AddVoteStep(records, user, index, name).status == Success
    ensures DelVoteStep(AddVoteStep(records, user, index, name).records, user, index, name)
         == Step(Success, records)
  {
    var i := Find(records, name).value;
    var k := FirstIndexed(records[i].options, index).value;
    var v := records[i].options[k].votes;
    AddVoteAppends(records, user, index, name, i, k);
    var after := records[i := WithVotes(records[i], k, v + [user])];
    WithVotesKeepsShape(records, i, k, v + [user]);
    SameShapeFind(records, after, name);
    SameOptionShapeFirstIndexed(records[i].options, after[i].options, index);
    DelVoteRemoves(after, user, index, name, i, k);
    RemoveAppended(v, user);
    WithVotesTwice(records[i], k, v + [user], v);
    WithSameVotes(records[i], k);
    assert after[i := WithVotes(after[i], k, v)] == records;
  }

  // ---------------------------------------------------------------------------
  // vote (poll.py:121-139)

  /**
   * `vote` refuses a missing poll, a closed poll and an absent label, in this
   * order, changing nothing; in every other case it reports success, also when
   * the user re-votes the option they already hold.
   */
  lemma VoteRefusals(records: seq<PollRecord>, user: Nick, index: int, name: string)
    ensures var r := VoteStep(records, user, index, name);
      && (r.status.Failure? ==> r.records == records)
      && (r.status == Failure(NoSuchPoll) <==> Find(records, name).None?)
      && (r.status == Failure(PollClosed) <==>
            Find(records, name).Some? && !records[Find(records, name).value].open)
      && (r.status == Failure(NoSuchIndex) <==>
            Find(records, name).Some? && records[Find(records, name).value].open
            && FirstIndexed(records[Find(records, name).value].options, index).None?)
      && (r.status == Success <==>
            Find(records, name).Some? && records[Find(records, name).value].open
            && FirstIndexed(records[Find(records, name).value].options, index).Some?)
  {
  }

  /** The document `vote` leaves behind, when `user` held at most one vote. */
  function Revoted(p: PollRecord, user: Nick, index: nat): PollRecord
    requires index < |p.options|
  {
    var cleared := match HolderOf(p.options, user)
      case None => p
      case Some(h) => WithVotes(p, h, Remove(p.options[h].votes, user));
    WithVotes(cleared, index, cleared.options[index].votes + [user])
  }

  /** The withdrawal half of `vote` on a poll labelled `0 .. n-1`. */
  lemma WithdrawnUpdate(records: seq<PollRecord>, user: Nick, name: string, i: nat)
    requires Find(records, name) == Some(i)
    requires records[i].open && IndexedByPosition(records[i].options)
    ensures Withdrawn(records, user, name, records[i].options) ==
      match HolderOf(records[i].options, user)
      case None => records
      case Some(h) => records[i := WithVotes(records[i], h, Remove(records[i].options[h].votes, user))]
  {
    var p := records[i];
    match HolderOf(p.options, user) {
      case None =>
      case Some(h) =>
        FirstIndexedAtPosition(p.options, h);
        DelVoteRemoves(records, user, h, name, i, h);
    }
  }

  /** The adding half of `vote` after a withdrawal from the option `h`. */
  lemma AddAfterWithdraw(records: seq<PollRecord>, user: Nick, index: int, name: string, i: nat, h: nat)
    requires Find(records, name) == Some(i)
    requires records[i].open && IndexedByPosition(records[i].options)
    requires AtMostOneHolder(records[i].options, user) && 0 <= index < |records[i].options|
    requires HolderOf(records[i].options, user) == Some(h)
    ensures var p := records[i];
      AddVoteStep(records[i := WithVotes(p, h, Remove(p.options[h].votes, user))], user, index, name)
      == Step(Success, records[i := Revoted(p, user, index)])
  {
    var p := records[i];
    var cleared := WithVotes(p, h, Remove(p.options[h].votes, user));
    var mid := records[i := cleared];
    WithVotesKeepsShape(records, i, h, Remove(p.options[h].votes, user));
    SameShapeFind(records, mid, name);
    FirstIndexedAtPosition(p.options, index);
    SameOptionShapeFirstIndexed(p.options, cleared.options, index);
    assert user !in cleared.options[index].votes by {
      if index == h {
        assert multiset(cleared.options[index].votes)[user] == 0;
      } else {
        assert cleared.options[index] == p.options[index];
        assert user in p.options[h].votes;
      }
    }
    AddVoteAppends(mid, user, index, name, i, index);
  }

  /** The document after `vote` in the cases the single-vote rule covers. */
  lemma VoteUpdate(records: seq<PollRecord>, user: Nick, index: int, name: string, i: nat)
    requires Find(records, name) == Some(i)
    requires records[i].open && IndexedByPosition(records[i].options)
    requires AtMostOneHolder(records[i].options, user) && 0 <= index < |records[i].options|
    ensures VoteStep(records, user, index, name) == Step(Success, records[i := Revoted(records[i], user, index)])
  {
    var p := records[i];
    FirstIndexedAtPosition(p.options, index);
    WithdrawnUpdate(records, user, name, i);
    var mid := Withdrawn(records, user, name, p.options);
    assert VoteStep(records, user, index, name) == Step(Success, AddVoteStep(mid, user, index, name).records);
    match HolderOf(p.options, user) {
      case None =>
        AddVoteAppends(records, user, index, name, i, index);
      case Some(h) =>
        AddAfterWithdraw(records, user, index, name, i, h);
    }
  }

  /**
   * The poll after withdraw-then-add: `user` holds exactly the option `index`,
   * and every other nick keeps its votes.
   */
  lemma RevotedHoldsExactly(p: PollRecord, user: Nick, index: nat)
    requires AtMostOneHolder(p.options, user) && index < |p.options|
    ensures var q := Revoted(p, user, index);
      && |q.options| == |p.options|
      && (forall k :: 0 <= k < |p.options| ==> (user in q.options[k].votes <==> k == index))
      && (forall k, u :: 0 <= k < |p.options| && u != user ==>
            multiset(q.options[k].votes)[u] == multiset(p.options[k].votes)[u])
  {
    var q := Revoted(p, user, index);
    match HolderOf(p.options, user) {
      case None =>
        forall k, u | 0 <= k < |p.options| && u != user
          ensures multiset(q.options[k].votes)[u] == multiset(p.options[k].votes)[u]
        {
          if k == index {
            assert q.options[k].votes == p.options[k].votes + [user];
          }
        }
      case Some(h) =>
        var cleared := WithVotes(p, h, Remove(p.options[h].votes, user));
        assert q == WithVotes(cleared, index, cleared.options[index].votes + [user]);
        forall k | 0 <= k < |p.options|
          ensures user in q.options[k].votes <==> k == index
        {
          if k == h && k != index {
            assert q.options[k].votes == Remove(p.options[h].votes, user);
            assert multiset(q.options[k].votes)[user] == 0;
          } else if k != index && h < k {
            assert q.options[k] == p.options[k];
            assert user in p.options[h].votes;
          } else if k != index {
            assert q.options[k] == p.options[k];
          }
        }
        forall k, u | 0 <= k < |p.options| && u != user
          ensures multiset(q.options[k].votes)[u] == multiset(p.options[k].votes)[u]
        {
          if k == index {
            assert q.options[k].votes == cleared.options[k].votes + [user];
          }
        }
    }
  }

  /**
   * On a poll labelled `0 .. n-1` where `user` held at most one vote, `vote`
   * leaves `user` holding exactly the option `index`; every other nick keeps
   * its votes, and every other document is untouched.
   */
  lemma VoteHoldsExactlyTarget(records: seq<PollRecord>, user: Nick, index: int, name: string)
    requires Find(records, name).Some?
    requires var p := records[Find(records, name).value];
      p.open && IndexedByPosition(p.options) && AtMostOneHolder(p.options, user) && 0 <= index < |p.options|
    ensures var i := Find(records, name).value;
      var r := VoteStep(records, user, index, name);
      && r.status == Success
      && |r.records| == |records|
      && (forall j :: 0 <= j < |records| && j != i ==> r.records[j] == records[j])
      && |r.records[i].options| == |records[i].options|
      && (forall k :: 0 <= k < |records[i].options| ==>
            (user in r.records[i].options[k].votes <==> k == index))
      && (forall k, u :: 0 <= k < |records[i].options| && u != user ==>
            multiset(r.records[i].options[k].votes)[u] == multiset(records[i].options[k].votes)[u])
  {
    var i := Find(records, name).value;
    VoteUpdate(records, user, index, name, i);
    RevotedHoldsExactly(records[i], user, index);
  }

  /** Re-voting the option already held moves `user` to the end of that option's votes. */
  lemma VoteAgainMovesToEnd(records: seq<PollRecord>, user: Nick, index: int, name: string)
    requires Find(records, name).Some?
    requires var p := records[Find(records, name).value];
      p.open && IndexedByPosition(p.options) && AtMostOneHolder(p.options, user)
      && 0 <= index < |p.options| && user in p.options[index].votes
    ensures var i := Find(records, name).value;
      var r := VoteStep(records, user, index, name);
      && r.status == Success
      && r.records == records[i := WithVotes(records[i], index, Remove(records[i].options[index].votes, user) + [user])]
  {
    var i := Find(records, name).value;
    var p := records[i];
    VoteUpdate(records, user, index, name, i);
    var h := HolderOf(p.options, user).value;
    assert Revoted(p, user, index) == WithVotes(WithVotes(p, h, Remove(p.options[h].votes, user)), index,
      WithVotes(p, h, Remove(p.options[h].votes, user)).options[index].votes + [user]);
    assert h == index;
    WithVotesTwice(p, index, Remove(p.options[index].votes, user), Remove(p.options[index].votes, user) + [user]);
  }

  // ---------------------------------------------------------------------------
  // The collection invariant

  /**
   * Shrinking the votes of options, in the sense of multisets, keeps a
   * document well formed.
   */
  lemma ShrinkKeepsWellFormed(p: PollRecord, q: PollRecord)
    requires WellFormed(p)
    requires SameOptionShape(p.options, q.options)
    requires forall k :: 0 <= k < |p.options| ==> multiset(q.options[k].votes) <= multiset(p.options[k].votes)
    ensures WellFormed(q)
  {
    forall u, a, b | 0 <= a < b < |q.options| && u in q.options[a].votes
      ensures u !in q.options[b].votes
    {
      assert multiset(q.options[a].votes)[u] <= multiset(p.options[a].votes)[u];
      assert u in p.options[a].votes;
      assert AtMostOneHolder(p.options, u);
      assert multiset(q.options[b].votes)[u] <= multiset(p.options[b].votes)[u] == 0;
    }
    forall k | 0 <= k < |q.options|
      ensures NoRepeats(q.options[k].votes)
    {
      forall u ensures multiset(q.options[k].votes)[u] <= 1 {
        assert NoRepeats(p.options[k].votes);
        assert multiset(q.options[k].votes)[u] <= multiset(p.options[k].votes)[u];
      }
    }
  }

  /** Adding a vote for a nick that holds none keeps a document well formed. */
  lemma AddFreshKeepsWellFormed(p: PollRecord, t: nat, user: Nick)
    requires WellFormed(p) && t < |p.options|
    requires forall k :: 0 <= k < |p.options| ==> user !in p.options[k].votes
    ensures WellFormed(WithVotes(p, t, p.options[t].votes + [user]))
  {
    var q := WithVotes(p, t, p.options[t].votes + [user]);
    assert forall k :: 0 <= k < |q.options| ==> q.options[k].index == p.options[k].index;
    forall u, a, b | 0 <= a < b < |q.options| && u in q.options[a].votes
      ensures u !in q.options[b].votes
    {
      if u != user {
        assert u in p.options[a].votes;
        assert AtMostOneHolder(p.options, u);
      } else {
        assert a == t;
      }
    }
    forall k | 0 <= k < |q.options|
      ensures NoRepeats(q.options[k].votes)
    {
      assert NoRepeats(p.options[k].votes);
      if k == t {
        assert multiset(q.options[k].votes) == multiset(p.options[t].votes) + multiset{user};
      }
    }
  }

  lemma ReplaceKeepsValid(records: seq<PollRecord>, i: nat, q: PollRecord)
    requires StoreValid(records) && i < |records| && WellFormed(q)
    ensures StoreValid(records[i := q])
  {
  }

  /** Withdrawing the single vote of `user` keeps a document well formed and leaves `user` without a vote. */
  lemma WithdrawKeepsWellFormed(p: PollRecord, user: Nick, h: nat)
    requires WellFormed(p) && HolderOf(p.options, user) == Some(h)
    ensures var cleared := WithVotes(p, h, Remove(p.options[h].votes, user));
      WellFormed(cleared) && forall k :: 0 <= k < |cleared.options| ==> user !in cleared.options[k].votes
  {
    var cleared := WithVotes(p, h, Remove(p.options[h].votes, user));
    forall k | 0 <= k < |p.options|
      ensures multiset(cleared.options[k].votes) <= multiset(p.options[k].votes)
    {
    }
    ShrinkKeepsWellFormed(p, cleared);
    forall k | 0 <= k < |cleared.options|
      ensures user !in cleared.options[k].votes
    {
      if k == h {
        assert multiset(cleared.options[k].votes)[user] == 0;
      } else if h < k {
        assert AtMostOneHolder(p.options, user);
        assert user in p.options[h].votes;
      }
    }
  }

  /** `vote` keeps every document of a valid collection well formed. */
  lemma VoteKeepsValid(records: seq<PollRecord>, user: Nick, index: int, name: string)
    requires StoreValid(records)
    ensures StoreValid(VoteStep(records, user, index, name).records)
  {
    match Find(records, name) {
      case None =>
      case Some(i) =>
        var p := records[i];
        if p.open && FirstIndexed(p.options, index).Some? {
          assert WellFormed(p);
          assert 0 <= index < |p.options| by {
            var k := FirstIndexed(p.options, index).value;
            assert p.options[k].index == k;
          }
          assert AtMostOneHolder(p.options, user);
          VoteUpdate(records, user, index, name, i);
          var cleared := match HolderOf(p.options, user)
            case None => p
            case Some(h) => WithVotes(p, h, Remove(p.options[h].votes, user));
          match HolderOf(p.options, user) {
            case None =>
            case Some(h) => WithdrawKeepsWellFormed(p, user, h);
          }
          AddFreshKeepsWellFormed(cleared, index, user);
          ReplaceKeepsValid(records, i, Revoted(p, user, index));
        }
    }
  }

  /** `del_vote` keeps every document of a valid collection well formed. */
  lemma DelVoteKeepsValid(records: seq<PollRecord>, user: Nick, index: int, name: string)
    requires StoreValid(records)
    ensures StoreValid(DelVoteStep(records, user, index, name).records)
  {
    var r := DelVoteStep(records, user, index, name);
    if r.status == Success {
      var i := Find(records, name).value;
      var k := FirstIndexed(records[i].options, index).value;
      DelVoteRemoves(records, user, index, name, i, k);
      var q := WithVotes(records[i], k, Remove(records[i].options[k].votes, user));
      forall j | 0 <= j < |q.options|
        ensures multiset(q.options[j].votes) <= multiset(records[i].options[j].votes)
      {
      }
      ShrinkKeepsWellFormed(records[i], q);
      ReplaceKeepsValid(records, i, q);
    }
  }

  /** Opening or closing a poll keeps a valid collection valid. */
  lemma SetOpenKeepsValid(records: seq<PollRecord>, name: string, open: bool)
    requires StoreValid(records)
    ensures StoreValid(SetOpen(records, name, open))
  {
  }

  /** Deleting a poll keeps a valid collection valid. */
  lemma DeleteKeepsValid(records: seq<PollRecord>, name: string)
    requires StoreValid(records)
    ensures StoreValid(DeleteFirst(records, name))
  {
    match Find(records, name)
    case None =>
    case Some(i) =>
      var r := records[..i] + records[i + 1..];
      forall j | 0 <= j < |r| ensures WellFormed(r[j]) {
        if j < i {
          assert r[j] == records[j];
        } else {
          assert r[j] == records[j + 1];
        }
      }
  }
}
