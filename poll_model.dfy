/**
 * The poll collection as values: the documents of the MongoDB collection
 * `brote.poll`, the queries and atomic updates the plugin issues against it,
 * the vote primitives `add_vote`, `del_vote` and `vote` as transitions of the
 * whole collection, and the invariants a committed poll keeps.
 */
module PollModel {

  datatype Option<T> = None | Some(value: T)

  /** The nickname of an IRC user; authors and voters are identified by it. */
  type Nick = string

  /** The creation time of a poll: stored and shown, never compared. */
  type Date = int

  /** One answer of a poll: its index label, its text and the nicks that chose it. */
  datatype PollOption = PollOption(index: int, name: string, votes: seq<Nick>)

  /** One document of the collection. */
  datatype PollRecord = PollRecord(
    author: Nick,
    name: string,
    title: string,
    date: Date,
    open: bool,
    interim: bool,
    anonymous: bool,
    options: seq<PollOption>)

  /** Every refusal the plugin can reply with. */
  datatype Error =
    // the strings returned by the store methods
    | NoSuchPoll | PollClosed | NoSuchIndex | AlreadyVoted | HaventVoted
    // the refusals of the command handler
    | NoAccess | CloseFirst | NotAdmin | Malformed | BadIndex
    | NoVoteToRemove | UserDidNotVote
    | BadCodename | CodenameTaken | UnknownAnswer | NoOptionName
    | NotAnIndex | NoOptionsYet | NoSuchOption
    | UnknownSettingValue | UnknownSetting | NotReady | UnknownCommand

  /** `True` or an error string, as the store methods return them. */
  datatype Status = Success | Failure(error: Error)

  /** The outcome of a store operation together with the collection afterwards. */
  datatype Step = Step(status: Status, records: seq<PollRecord>)

  // ---------------------------------------------------------------------------
  // Queries

  /** `find_one({"name": name})`: the position of the first document with that name. */
  function Find(records: seq<PollRecord>, name: string): (r: Option<nat>)
    ensures r.Some? ==> r.value < |records| && records[r.value].name == name
    ensures r.Some? ==> forall j :: 0 <= j < r.value ==> records[j].name != name
    ensures r.None? ==> forall j :: 0 <= j < |records| ==> records[j].name != name
  {
    if |records| == 0 then None
    else if records[0].name == name then Some(0)
    else match Find(records[1..], name)
      case None => None
      case Some(k) => Some(k + 1)
  }

  /**
   * The position of the first option carrying the index label `index`: the
   * first element of the `filter` on `item["index"] == index`, and the element
   * the positional operator `options.$` designates.
   */
  function FirstIndexed(options: seq<PollOption>, index: int): (r: Option<nat>)
    ensures r.Some? ==> r.value < |options| && options[r.value].index == index
    ensures r.Some? ==> forall j :: 0 <= j < r.value ==> options[j].index != index
    ensures r.None? ==> forall j :: 0 <= j < |options| ==> options[j].index != index
  {
    if |options| == 0 then None
    else if options[0].index == index then Some(0)
    else match FirstIndexed(options[1..], index)
      case None => None
      case Some(k) => Some(k + 1)
  }

  /** The position of the first option whose votes hold `user` (the `already_voted` filter). */
  function HolderOf(options: seq<PollOption>, user: Nick): (r: Option<nat>)
    ensures r.Some? ==> r.value < |options| && user in options[r.value].votes
    ensures r.Some? ==> forall j :: 0 <= j < r.value ==> user !in options[j].votes
    ensures r.None? ==> forall j :: 0 <= j < |options| ==> user !in options[j].votes
  {
    if |options| == 0 then None
    else if user in options[0].votes then Some(0)
    else match HolderOf(options[1..], user)
      case None => None
      case Some(k) => Some(k + 1)
  }

  /** Whether a document matches the update filter `{"name": name, "options.index": index}`. */
  predicate MatchesUpdate(p: PollRecord, name: string, index: int)
  {
    p.name == name && FirstIndexed(p.options, index).Some?
  }

  /** The first document the update filter `{"name": name, "options.index": index}` matches. */
  function FindWithIndex(records: seq<PollRecord>, name: string, index: int): (r: Option<nat>)
    ensures r.Some? ==> r.value < |records| && MatchesUpdate(records[r.value], name, index)
    ensures r.Some? ==> forall j :: 0 <= j < r.value ==> !MatchesUpdate(records[j], name, index)
    ensures r.None? ==> forall j :: 0 <= j < |records| ==> !MatchesUpdate(records[j], name, index)
  {
    if |records| == 0 then None
    else if MatchesUpdate(records[0], name, index) then Some(0)
    else match FindWithIndex(records[1..], name, index)
      case None => None
      case Some(k) => Some(k + 1)
  }

  // ---------------------------------------------------------------------------
  // Atomic updates

  /** The document with the votes of its `k`-th option replaced. */
  function WithVotes(p: PollRecord, k: nat, votes: seq<Nick>): PollRecord
    requires k < |p.options|
  {
    p.(options := p.options[k := p.options[k].(votes := votes)])
  }

  /** `$pull`: the votes without any occurrence of `user`; the others keep their multiplicity. */
  function Remove(votes: seq<Nick>, user: Nick): (r: seq<Nick>)
    ensures multiset(r) == multiset(votes)[user := 0]
    ensures user !in votes ==> r == votes
  {
    if |votes| == 0 then []
    else
      assert votes == [votes[0]] + votes[1..];
      if votes[0] == user then Remove(votes[1..], user)
      else [votes[0]] + Remove(votes[1..], user)
  }

  /** `find_one_and_update({"name": name, "options.index": index}, {"$push": {"options.$.votes": user}})`. */
  function PushVote(records: seq<PollRecord>, name: string, index: int, user: Nick): seq<PollRecord>
  {
    match FindWithIndex(records, name, index)
    case None => records
    case Some(i) =>
      var k := FirstIndexed(records[i].options, index).value;
      records[i := WithVotes(records[i], k, records[i].options[k].votes + [user])]
  }

  /** `find_one_and_update({"name": name, "options.index": index}, {"$pull": {"options.$.votes": user}})`. */
  function PullVote(records: seq<PollRecord>, name: string, index: int, user: Nick): seq<PollRecord>
  {
    match FindWithIndex(records, name, index)
    case None => records
    case Some(i) =>
      var k := FirstIndexed(records[i].options, index).value;
      records[i := WithVotes(records[i], k, Remove(records[i].options[k].votes, user))]
  }

  /** `find_one_and_update({"name": name}, {"$set": {"open": open}})`. */
  function SetOpen(records: seq<PollRecord>, name: string, open: bool): (r: seq<PollRecord>)
  {
    match Find(records, name)
    case None => records
    case Some(i) => records[i := records[i].(open := open)]
  }

  /** `delete_one({"name": name})`. */
  function DeleteFirst(records: seq<PollRecord>, name: string): (r: seq<PollRecord>)
  {
    match Find(records, name)
    case None => records
    case Some(i) => records[..i] + records[i + 1..]
  }

  // ---------------------------------------------------------------------------
  // The vote primitives as transitions of the collection

  /** `Poll.add_vote(user, index, name)`. */
  function AddVoteStep(records: seq<PollRecord>, user: Nick, index: int, name: string): Step
  {
    match Find(records, name)
    case None => Step(Failure(NoSuchPoll), records)
    case Some(i) =>
      if !records[i].open then Step(Failure(PollClosed), records)
      else match FirstIndexed(records[i].options, index)
        case None => Step(Failure(NoSuchIndex), records)
        case Some(k) =>
          if user in records[i].options[k].votes then Step(Failure(AlreadyVoted), records)
          else Step(Success, PushVote(records, name, index, user))
  }

  /** `Poll.del_vote(user, index, name)`. */
  function DelVoteStep(records: seq<PollRecord>, user: Nick, index: int, name: string): Step
  {
    match Find(records, name)
    case None => Step(Failure(NoSuchPoll), records)
    case Some(i) =>
      if !records[i].open then Step(Failure(PollClosed), records)
      else match FirstIndexed(records[i].options, index)
        case None => Step(Failure(NoSuchIndex), records)
        case Some(k) =>
          if user !in records[i].options[k].votes then Step(Failure(HaventVoted), records)
          else Step(Success, PullVote(records, name, index, user))
  }

  /**
   * `Poll.vote(user, index, name)`: after the same three checks, withdraws the
   * vote from the first option holding `user` and adds one to `index`. The
   * results of both halves are ignored and `True` is returned.
   */
  function VoteStep(records: seq<PollRecord>, user: Nick, index: int, name: string): Step
  {
    match Find(records, name)
    case None => Step(Failure(NoSuchPoll), records)
    case Some(i) =>
      if !records[i].open then Step(Failure(PollClosed), records)
      else if FirstIndexed(records[i].options, index).None? then Step(Failure(NoSuchIndex), records)
      else Step(Success, AddVoteStep(Withdrawn(records, user, name, records[i].options), user, index, name).records)
  }

  /** The `del_vote` half of `vote`: withdraws `user` from the first of `options` holding them. */
  function Withdrawn(records: seq<PollRecord>, user: Nick, name: string, options: seq<PollOption>): seq<PollRecord>
  {
    match HolderOf(options, user)
    case None => records
    case Some(h) => DelVoteStep(records, user, options[h].index, name).records
  }

  // ---------------------------------------------------------------------------
  // Invariants of committed polls

  /** The options are labelled `0 .. n-1` in order, as a commit creates them. */
  ghost predicate IndexedByPosition(options: seq<PollOption>)
  {
    forall k :: 0 <= k < |options| ==> options[k].index == k
  }

  /** No nick occurs twice among the votes of one option. */
  ghost predicate NoRepeats(votes: seq<Nick>)
  {
    forall u :: multiset(votes)[u] <= 1
  }

  /** `user` holds a vote in at most one option. */
  ghost predicate AtMostOneHolder(options: seq<PollOption>, user: Nick)
  {
    forall a, b :: 0 <= a < b < |options| && user in options[a].votes ==> user !in options[b].votes
  }

  /** The single-active-vote rule: every nick holds at most one vote per poll. */
  ghost predicate SingleActiveVote(options: seq<PollOption>)
  {
    forall u :: AtMostOneHolder(options, u)
  }

  ghost predicate WellFormed(p: PollRecord)
  {
    && IndexedByPosition(p.options)
    && SingleActiveVote(p.options)
    && (forall k :: 0 <= k < |p.options| ==> NoRepeats(p.options[k].votes))
  }

  /** Every document of the collection is well formed. */
  ghost predicate StoreValid(records: seq<PollRecord>)
  {
    forall i :: 0 <= i < |records| ==> WellFormed(records[i])
  }

  /** Two options agree on everything but their votes. */
  ghost predicate SameOptionShape(x: seq<PollOption>, y: seq<PollOption>)
  {
    |x| == |y| && forall k :: 0 <= k < |x| ==> x[k].index == y[k].index && x[k].name == y[k].name
  }

  /** Two collections agree on everything but the votes. */
  ghost predicate SameShape(a: seq<PollRecord>, b: seq<PollRecord>)
  {
    && |a| == |b|
    && forall i :: 0 <= i < |a| ==>
         a[i].(options := []) == b[i].(options := []) && SameOptionShape(a[i].options, b[i].options)
  }
}
