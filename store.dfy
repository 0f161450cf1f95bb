/**
 * The `Poll` object of poll.py: the collection it talks to, the drafts of
 * the users in edit mode, and its store methods, which change the collection
 * in place. Each method is proved against the transition of the collection
 * defined in `PollModel`.
 */
module PollStore {
  import opened PollModel
  import opened Drafts
  import opened Voting

  /** `Poll.admins`: the nicks allowed to run the admin commands. */
  const Admins: seq<Nick> := ["Totoro", "fingercomp", "LeshaInc"]

  /** `Poll.checkAccess`: the author of the poll or an admin. */
  predicate CheckAccess(p: PollRecord, nick: Nick)
  {
    p.author == nick || nick in Admins
  }

  class Poll {
    /** The documents of the collection `brote.poll`, in insertion order. */
    var records: seq<PollRecord>
    /** `Poll.partial`: the draft of every user in edit mode. */
    var partial: map<Nick, Draft>

    /** Every stored poll is well formed and every draft keeps its invariant. */
    ghost predicate Valid()
      reads this
    {
      StoreValid(records) && DraftsValid(partial)
    }

    /** The object over a collection that already holds `stored`, with nobody in edit mode. */
    constructor(stored: seq<PollRecord>)
      ensures records == stored && partial == map[]
      ensures StoreValid(stored) ==> Valid()
    {
      records := stored;
      partial := map[];
    }

    /** `get_poll`: the first document with that name, if any. */
    function GetPoll(name: string): (r: Option<PollRecord>)
      reads this
      ensures r.None? <==> forall j :: 0 <= j < |records| ==> records[j].name != name
      ensures r.Some? ==> r.value.name == name && r.value in records
      ensures r.Some? ==> exists i :: 0 <= i < |records| && records[i] == r.value
                                      && forall j :: 0 <= j < i ==> records[j].name != name
    {
      match Find(records, name)
      case None => None
      case Some(i) => Some(records[i])
    }

    /** `new_poll` (`insert_one`): the document goes to the end of the collection. */
    method NewPoll(p: PollRecord)
      modifies this
      ensures records == old(records) + [p]
      ensures partial == old(partial)
    {
      records := records + [p];
    }

    /** `del_poll` (`delete_one`): removes the first document with that name and returns the deleted count. */
    method DelPoll(name: string) returns (deleted: nat)
      modifies this
      ensures records == DeleteFirst(old(records), name)
      ensures deleted == if Find(old(records), name).Some? then 1 else 0
      ensures |records| == |old(records)| - deleted
      ensures partial == old(partial)
    {
      var found := Find(records, name);
      if found.None? {
        deleted := 0;
      } else {
        var i := found.value;
        records := records[..i] + records[i + 1..];
        deleted := 1;
      }
    }

    /** `open`: sets `open` on the first document with that name. */
    method Open(name: string)
      modifies this
      ensures records == SetOpen(old(records), name, true)
      ensures partial == old(partial)
    {
      var found := Find(records, name);
      if found.Some? {
        var i := found.value;
        records := records[i := records[i].(open := true)];
      }
    }

    /** `close`: clears `open` on the first document with that name. */
    method Close(name: string)
      modifies this
      ensures records == SetOpen(old(records), name, false)
      ensures partial == old(partial)
    {
      var found := Find(records, name);
      if found.Some? {
        var i := found.value;
        records := records[i := records[i].(open := false)];
      }
    }

    /** `add_vote`: the four checks on the poll `get_poll` finds, then the `$push`. */
    method AddVote(user: Nick, index: int, name: string) returns (s: Status)
      modifies this
      ensures Step(s, records) == AddVoteStep(old(records), user, index, name)
      ensures partial == old(partial)
    {
      var poll := GetPoll(name);
      if poll.None? {
        return Failure(NoSuchPoll);
      }
      if !poll.value.open {
        return Failure(PollClosed);
      }
      var opt := FirstIndexed(poll.value.options, index);
      if opt.None? {
        return Failure(NoSuchIndex);
      }
      if user in poll.value.options[opt.value].votes {
        return Failure(AlreadyVoted);
      }
      records := PushVote(records, name, index, user);
      s := Success;
    }

    /** `del_vote`: the same three checks, "haven't voted", then the `$pull`. */
    method DelVote(user: Nick, index: int, name: string) returns (s: Status)
      modifies this
      ensures Step(s, records) == DelVoteStep(old(records), user, index, name)
      ensures partial == old(partial)
    {
      var poll := GetPoll(name);
      if poll.None? {
        return Failure(NoSuchPoll);
      }
      if !poll.value.open {
        return Failure(PollClosed);
      }
      var opt := FirstIndexed(poll.value.options, index);
      if opt.None? {
        return Failure(NoSuchIndex);
      }
      if user !in poll.value.options[opt.value].votes {
        return Failure(HaventVoted);
      }
      records := PullVote(records, name, index, user);
      s := Success;
    }

    /**
     * `vote`: after the poll, open and index checks, withdraws the vote of
     * the first option holding `user`, adds the vote for `index`, and
     * reports success whatever those two calls returned.
     */
    method Vote(user: Nick, index: int, name: string) returns (s: Status)
      modifies this
      ensures Step(s, records) == VoteStep(old(records), user, index, name)
      ensures partial == old(partial)
      ensures old(StoreValid(records)) ==> StoreValid(records)
    {
      ghost var before := records;
      var poll := GetPoll(name);
      if poll.None? {
        return Failure(NoSuchPoll);
      }
      var p := poll.value;
      if !p.open {
        return Failure(PollClosed);
      }
      var k := 0;
      while k < |p.options| && p.options[k].index != index
        invariant 0 <= k <= |p.options|
        invariant forall j :: 0 <= j < k ==> p.options[j].index != index
      {
        k := k + 1;
      }
      if k == |p.options| {
        return Failure(NoSuchIndex);
      }
      var held := HolderOf(p.options, user);
      if held.Some? {
        var withdrawn := DelVote(user, p.options[held.value].index, name);
      }
      var added := AddVote(user, index, name);
      s := Success;
      if StoreValid(before) {
        VoteKeepsValid(before, user, index, name);
      }
    }
  }
}
