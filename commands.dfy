/**
 * The `.poll` command handler `poll(bot, trigger)`: the edit-mode commands
 * that build a draft, and the normal-mode commands that open, close, delete,
 * vote on, retract votes from, report on and list the stored polls. Replies
 * are modelled as a `Response` value instead of IRC text.
 */
module Commands {
  import opened PollModel
  import opened Voting
  import opened Drafts
  import opened Reports
  import opened PollStore

  /** What the handler answers, without the wording. */
  datatype Response =
    | NoCommand                                 // `return False` for an empty command word
    | HelpShown
    | EditModeEntered
    | Done                                      // the change asked for was made
    | Rejected(error: Error)
    | DraftShown(view: DraftView)
    | OptionAdded(position: nat)
    | OptionRemoved(index: int, text: string)
    | Voted(index: int, option: string)
    | InfoShown(report: Report)
    | Listed(polls: seq<(string, bool)>)        // an empty list is the "No polls." reply

  /** The command words handled only in edit mode. */
  const EditCommands: seq<string> := ["#", "!", "@", "?", ">", "<", "=", "~~~", "***"]

  /** The command words that can change the collection. */
  const StoreCommands: seq<string> := ["~~~", "open", "close", "delete", "remove", "vote", "unvote", "delvote", "remvote"]

  function Reply(s: Status): (r: Response)
    ensures s == Success <==> r == Done
    ensures s.Failure? ==> r == Rejected(s.error)
  {
    match s
    case Success => Done
    case Failure(e) => Rejected(e)
  }

  // ---------------------------------------------------------------------------
  // Normal-mode commands as transitions of the collection

  /** `open`/`close <poll>`: the poll must exist and the actor must have access. */
  function OpenCloseStep(records: seq<PollRecord>, nick: Nick, name: string, open: bool): Step
  {
    match Find(records, name)
    case None => Step(Failure(NoSuchPoll), records)
    case Some(i) =>
      if !CheckAccess(records[i], nick) then Step(Failure(NoAccess), records)
      else Step(Success, SetOpen(records, name, open))
  }

  /** `delete`/`remove <poll>`: as `open`/`close`, and the poll must be closed. */
  function DeleteStep(records: seq<PollRecord>, nick: Nick, name: string): Step
  {
    match Find(records, name)
    case None => Step(Failure(NoSuchPoll), records)
    case Some(i) =>
      if !CheckAccess(records[i], nick) then Step(Failure(NoAccess), records)
      else if records[i].open then Step(Failure(CloseFirst), records)
      else Step(Success, DeleteFirst(records, name))
  }

  /**
   * The common part of `unvote` and `delvote`: the label of the first option
   * holding `voter` goes to `del_vote`; `missing` is the refusal when the
   * voter holds no vote.
   */
  function RetractStep(records: seq<PollRecord>, voter: Nick, name: string, missing: Error): Step
  {
    match Find(records, name)
    case None => Step(Failure(NoSuchPoll), records)
    case Some(i) =>
      match HolderOf(records[i].options, voter)
      case None => Step(Failure(missing), records)
      case Some(h) => DelVoteStep(records, voter, records[i].options[h].index, name)
  }

  /** `unvote <poll>`, with the refusal the handler evidently intended when there is no vote. */
  function UnvoteStep(records: seq<PollRecord>, nick: Nick, name: string): (r: Step)
    ensures Find(records, name).Some? &&
      (forall k :: 0 <= k < |records[Find(records, name).value].options| ==>
         nick !in records[Find(records, name).value].options[k].votes)
      ==> r == Step(Failure(NoVoteToRemove), records)
  {
    RetractStep(records, nick, name, NoVoteToRemove)
  }

  /** `delvote`/`remvote <poll> <user>`: admins only, exactly two words. */
  function DelvoteStep(records: seq<PollRecord>, nick: Nick, arg: string): Step
  {
    if nick !in Admins then Step(Failure(NotAdmin), records)
    else
      var words := Words(arg);
      if |words| != 2 then Step(Failure(Malformed), records)
      else RetractStep(records, words[1], words[0], UserDidNotVote)
  }

  /** The text of the option `post-vote` lookup finds: the option with that label in the poll with that name. */
  function OptionName(records: seq<PollRecord>, name: string, index: int): Option<string>
  {
    match Find(records, name)
    case None => None
    case Some(i) =>
      match FirstIndexed(records[i].options, index)
      case None => None
      case Some(k) => Some(records[i].options[k].name)
  }

  // ---------------------------------------------------------------------------
  // Access control and gating

  /**
   * `open`/`close` refuse a missing poll and then an actor who is neither the
   * author nor an admin, changing nothing; otherwise only the `open` flag of
   * the poll found changes.
   */
  lemma OpenCloseGated(records: seq<PollRecord>, nick: Nick, name: string, open: bool)
    ensures var r := OpenCloseStep(records, nick, name, open);
      && (r.status.Failure? ==> r.records == records)
      && (r.status == Failure(NoSuchPoll) <==> Find(records, name).None?)
      && (r.status == Failure(NoAccess) <==>
            Find(records, name).Some? && !CheckAccess(records[Find(records, name).value], nick))
      && (r.status == Success <==>
            Find(records, name).Some? && CheckAccess(records[Find(records, name).value], nick))
      && (r.status == Success ==>
            var i := Find(records, name).value;
            && |r.records| == |records|
            && r.records[i].open == open
            && r.records[i].(open := records[i].open) == records[i]
            && forall j :: 0 <= j < |records| && j != i ==> r.records[j] == records[j])
  {
  }

  /** Removing the document at `i` keeps the others in order, shifting those after it down by one. */
  lemma RemovalAt(records: seq<PollRecord>, i: nat)
    requires i < |records|
    ensures var r := records[..i] + records[i + 1..];
      && |r| == |records| - 1
      && (forall j :: 0 <= j < i ==> r[j] == records[j])
      && (forall j :: i < j < |records| ==> r[j - 1] == records[j])
      && (forall j :: 0 <= j < |records| && j != i ==> records[j] in r)
  {
    var r := records[..i] + records[i + 1..];
    forall j | i < j < |records|
      ensures r[j - 1] == records[j]
    {
      assert r[j - 1] == records[i + 1..][j - 1 - i];
    }
    forall j | 0 <= j < |records| && j != i
      ensures records[j] in r
    {
      if j < i {
        assert r[j] == records[j];
      } else {
        assert r[j - 1] == records[j];
      }
    }
  }

  /**
   * `delete` refuses a missing poll, an actor without access and an open
   * poll, in this order, changing nothing; otherwise exactly the poll found
   * is removed.
   */
  lemma DeleteGated(records: seq<PollRecord>, nick: Nick, name: string)
    ensures var r := DeleteStep(records, nick, name);
      && (r.status.Failure? ==> r.records == records)
      && (r.status == Failure(NoSuchPoll) <==> Find(records, name).None?)
      && (r.status == Failure(NoAccess) <==>
            Find(records, name).Some? && !CheckAccess(records[Find(records, name).value], nick))
      && (r.status == Failure(CloseFirst) <==>
            Find(records, name).Some? && CheckAccess(records[Find(records, name).value], nick)
            && records[Find(records, name).value].open)
      && (r.status == Success <==>
            Find(records, name).Some? && CheckAccess(records[Find(records, name).value], nick)
            && !records[Find(records, name).value].open)
      && (r.status == Success ==>
            var i := Find(records, name).value;
            && |r.records| == |records| - 1
            && (forall j :: 0 <= j < i ==> r.records[j] == records[j])
            && (forall j :: i < j < |records| ==> r.records[j - 1] == records[j]))
  {
    var r := DeleteStep(records, nick, name);
    match Find(records, name) {
      case None =>
        assert r == Step(Failure(NoSuchPoll), records);
      case Some(i) =>
        if !CheckAccess(records[i], nick) {
          assert r == Step(Failure(NoAccess), records);
        } else if records[i].open {
          assert r == Step(Failure(CloseFirst), records);
        } else {
          assert r == Step(Success, records[..i] + records[i + 1..]);
          RemovalAt(records, i);
        }
    }
  }

  /** `delete` never removes an open poll. */
  lemma OpenPollsSurviveDelete(records: seq<PollRecord>, nick: Nick, name: string)
    ensures forall j :: 0 <= j < |records| && records[j].open ==> records[j] in DeleteStep(records, nick, name).records
  {
    var r := DeleteStep(records, nick, name);
    if r.records == records {
      forall j | 0 <= j < |records| && records[j].open
        ensures records[j] in r.records
      {
        assert r.records[j] == records[j];
      }
    } else {
      var i := Find(records, name).value;
      assert !records[i].open && r.records == records[..i] + records[i + 1..];
      RemovalAt(records, i);
    }
  }

  /** `delvote` refuses everybody outside `Admins` before looking at anything, changing nothing. */
  lemma DelvoteAdminOnly(records: seq<PollRecord>, nick: Nick, arg: string)
    ensures nick !in Admins ==> DelvoteStep(records, nick, arg) == Step(Failure(NotAdmin), records)
    ensures nick in Admins && |Words(arg)| != 2 ==> DelvoteStep(records, nick, arg) == Step(Failure(Malformed), records)
    ensures nick in Admins && |Words(arg)| == 2 ==>
      DelvoteStep(records, nick, arg) == RetractStep(records, Words(arg)[1], Words(arg)[0], UserDidNotVote)
  {
  }

  // ---------------------------------------------------------------------------
  // unvote and delvote

  /**
   * On a well-formed collection, retracting refuses a missing poll, a voter
   * with no vote in it, and a closed poll, in this order, changing nothing;
   * it never meets "haven't voted" or "no such index", and it succeeds
   * exactly when the poll is open and the voter holds a vote.
   */
  lemma RetractOutcomes(records: seq<PollRecord>, voter: Nick, name: string, missing: Error)
    requires StoreValid(records)
    requires missing != NoSuchPoll && missing != PollClosed
    ensures var r := RetractStep(records, voter, name, missing);
      && (r.status.Failure? ==> r.records == records)
      && (r.status == Failure(NoSuchPoll) <==> Find(records, name).None?)
      && (Find(records, name).Some? ==>
            var p := records[Find(records, name).value];
            && (r.status == Failure(missing) <==> forall k :: 0 <= k < |p.options| ==> voter !in p.options[k].votes)
            && (r.status == Failure(PollClosed) <==>
                  !p.open && !(forall k :: 0 <= k < |p.options| ==> voter !in p.options[k].votes))
            && (r.status == Success <==>
                  p.open && !(forall k :: 0 <= k < |p.options| ==> voter !in p.options[k].votes)))
  {
    match Find(records, name) {
      case None =>
      case Some(i) =>
        var p := records[i];
        match HolderOf(p.options, voter) {
          case None =>
          case Some(h) =>
            assert WellFormed(p);
            FirstIndexedAtPosition(p.options, h);
            DelVoteRefusals(records, voter, h, name);
        }
    }
  }

  /**
   * A successful retraction on a well-formed collection takes `voter` out of
   * every option of the poll found, keeps every other nick's votes, and
   * changes no other document and nothing else of that one.
   */
  lemma RetractRemovesVote(records: seq<PollRecord>, voter: Nick, name: string, missing: Error)
    requires StoreValid(records)
    requires RetractStep(records, voter, name, missing).status == Success
    ensures Find(records, name).Some?
    ensures var i := Find(records, name).value;
      var r := RetractStep(records, voter, name, missing).records;
      && |r| == |records|
      && (forall j :: 0 <= j < |records| && j != i ==> r[j] == records[j])
      && r[i].(options := []) == records[i].(options := [])
      && SameOptionShape(records[i].options, r[i].options)
      && (forall k :: 0 <= k < |r[i].options| ==> voter !in r[i].options[k].votes)
      && (forall k :: 0 <= k < |r[i].options| ==>
            multiset(r[i].options[k].votes) == multiset(records[i].options[k].votes)[voter := 0])
  {
    var i := Find(records, name).value;
    var p := records[i];
    var h := HolderOf(p.options, voter).value;
    assert WellFormed(p);
    FirstIndexedAtPosition(p.options, h);
    DelVoteRemoves(records, voter, h, name, i, h);
    var q := WithVotes(p, h, Remove(p.options[h].votes, voter));
    var r := RetractStep(records, voter, name, missing).records;
    assert r == records[i := q];
    forall k | 0 <= k < |q.options|
      ensures multiset(q.options[k].votes) == multiset(p.options[k].votes)[voter := 0]
    {
      if k != h {
        assert AtMostOneHolder(p.options, voter);
        assert voter !in p.options[k].votes;
        assert multiset(p.options[k].votes)[voter] == 0;
        assert multiset(p.options[k].votes)[voter := 0] == multiset(p.options[k].votes);
      }
    }
    forall k | 0 <= k < |q.options|
      ensures voter !in q.options[k].votes
    {
      assert multiset(q.options[k].votes)[voter] == 0;
    }
  }

  /** Retracting keeps the collection well formed. */
  lemma RetractKeepsValid(records: seq<PollRecord>, voter: Nick, name: string, missing: Error)
    requires StoreValid(records)
    ensures StoreValid(RetractStep(records, voter, name, missing).records)
  {
    match Find(records, name) {
      case None =>
      case Some(i) =>
        match HolderOf(records[i].options, voter) {
          case None =>
          case Some(h) => DelVoteKeepsValid(records, voter, records[i].options[h].index, name);
        }
    }
  }

  lemma OpenCloseKeepsValid(records: seq<PollRecord>, nick: Nick, name: string, open: bool)
    requires StoreValid(records)
    ensures StoreValid(OpenCloseStep(records, nick, name, open).records)
  {
    SetOpenKeepsValid(records, name, open);
  }

  lemma DeleteStepKeepsValid(records: seq<PollRecord>, nick: Nick, name: string)
    requires StoreValid(records)
    ensures StoreValid(DeleteStep(records, nick, name).records)
  {
    DeleteKeepsValid(records, name);
  }

  lemma DelvoteKeepsValid(records: seq<PollRecord>, nick: Nick, arg: string)
    requires StoreValid(records)
    ensures StoreValid(DelvoteStep(records, nick, arg).records)
  {
    var words := Words(arg);
    if nick in Admins && |words| == 2 {
      RetractKeepsValid(records, words[1], words[0], UserDidNotVote);
    }
  }

  /** After a successful `vote` the option with that label still exists and has the same text. */
  lemma VoteKeepsOptionName(records: seq<PollRecord>, user: Nick, index: int, name: string)
    ensures VoteStep(records, user, index, name).status == Success ==> OptionName(records, name, index).Some?
    ensures OptionName(VoteStep(records, user, index, name).records, name, index) == OptionName(records, name, index)
  {
    var after := VoteStep(records, user, index, name).records;
    VoteRefusals(records, user, index, name);
    VoteKeepsShape(records, user, index, name);
    SameShapeFind(records, after, name);
    match Find(records, name) {
      case None =>
      case Some(i) =>
        SameOptionShapeFirstIndexed(records[i].options, after[i].options, index);
    }
  }

  /** The loop `for opt in options: if opt["index"] == index: break` stops at the first option with that label. */
  lemma LabelLookup(options: seq<PollOption>, index: int, k: nat)
    requires k < |options| && options[k].index == index
    requires forall j :: 0 <= j < k ==> options[j].index != index
    ensures FirstIndexed(options, index) == Some(k)
  {
  }

  // ---------------------------------------------------------------------------
  // The unvote handler as written

  /**
   * `unvote` as poll.py:494-511 has it. When the caller holds no vote the
   * handler replies and then goes on to call `del_vote` with `index`, which
   * no statement of this branch has bound, so it raises `UnboundLocalError`;
   * `None` stands for that crash.
   */
  function UnvoteAsWritten(records: seq<PollRecord>, nick: Nick, name: string): (r: Option<Step>)
    ensures r.None? <==>
      Find(records, name).Some? &&
      forall k :: 0 <= k < |records[Find(records, name).value].options| ==>
        nick !in records[Find(records, name).value].options[k].votes
  {
    match Find(records, name)
    case None => Some(Step(Failure(NoSuchPoll), records))
    case Some(i) =>
      match HolderOf(records[i].options, nick)
      case None => None
      case Some(h) => Some(DelVoteStep(records, nick, records[i].options[h].index, name))
  }

  /**
   * A poll exists, the caller has not voted: the handler as written crashes,
   * the corrected one refuses and changes nothing.
   */
  lemma UnvoteWithoutVoteCrashes()
    ensures var records := [PollRecord("A", "colour", "Colour?", 0, true, false, false,
                                       [PollOption(0, "red", []), PollOption(1, "blue", [])])];
      && UnvoteAsWritten(records, "B", "colour").None?
      && UnvoteStep(records, "B", "colour") == Step(Failure(NoVoteToRemove), records)
  {
    var p := PollRecord("A", "colour", "Colour?", 0, true, false, false,
                        [PollOption(0, "red", []), PollOption(1, "blue", [])]);
    assert Find([p], "colour") == Some(0);
    assert HolderOf(p.options, "B") == None;
  }

  /**
   * The corrected `unvote`: it crashes exactly where the handler as written
   * does, and refuses there with `NoVoteToRemove`, changing nothing;
   * everywhere else the two agree.
   */
  lemma UnvoteCorrected(records: seq<PollRecord>, nick: Nick, name: string)
    ensures UnvoteAsWritten(records, nick, name).None? ==>
      UnvoteStep(records, nick, name) == Step(Failure(NoVoteToRemove), records)
    ensures UnvoteAsWritten(records, nick, name).Some? ==>
      UnvoteAsWritten(records, nick, name).value == UnvoteStep(records, nick, name)
  {
  }

  // ---------------------------------------------------------------------------
  // Edit mode: the draft of `nick`

  /** `create` outside edit mode: stores an empty draft. */
  method Create(self: Poll, nick: Nick) returns (resp: Response)
    requires nick !in self.partial
    modifies self
    ensures resp == EditModeEntered
    ensures self.records == old(self.records)
    ensures self.partial == old(self.partial)[nick := EmptyDraft]
    ensures old(DraftsValid(self.partial)) ==> DraftsValid(self.partial)
  {
    self.partial := self.partial[nick := EmptyDraft];
    resp := EditModeEntered;
  }

  /** `# <codename>`: a well-formed codename no stored poll has yet. */
  method SetName(self: Poll, nick: Nick, arg: string) returns (resp: Response)
    requires nick in self.partial
    modifies self
    ensures self.records == old(self.records)
    ensures !IsCodename(arg) ==> resp == Rejected(BadCodename) && unchanged(self)
    ensures IsCodename(arg) && self.GetPoll(arg).Some? ==> resp == Rejected(CodenameTaken) && unchanged(self)
    ensures IsCodename(arg) && self.GetPoll(arg).None? ==>
      resp == Done && self.partial == old(self.partial)[nick := old(self.partial)[nick].(name := Some(arg))]
    ensures old(DraftsValid(self.partial)) ==> DraftsValid(self.partial)
  {
    if !IsCodename(arg) {
      return Rejected(BadCodename);
    }
    if self.GetPoll(arg).Some? {
      return Rejected(CodenameTaken);
    }
    var d := self.partial[nick];
    self.partial := self.partial[nick := d.(name := Some(arg))];
    resp := Done;
  }

  /** `! <title>`: any title, the empty one included. */
  method SetTitle(self: Poll, nick: Nick, arg: string) returns (resp: Response)
    requires nick in self.partial
    modifies self
    ensures resp == Done
    ensures self.records == old(self.records)
    ensures self.partial == old(self.partial)[nick := old(self.partial)[nick].(title := Some(arg))]
    ensures old(DraftsValid(self.partial)) ==> DraftsValid(self.partial)
  {
    var d := self.partial[nick];
    self.partial := self.partial[nick := d.(title := Some(arg))];
    resp := Done;
  }

  /** `@ <yes|no>`: the lowercased token decides whether interim results are shown. */
  method SetInterim(self: Poll, nick: Nick, arg: string) returns (resp: Response)
    requires nick in self.partial
    modifies self
    ensures self.records == old(self.records)
    ensures YesNo(Lower(arg)).None? ==> resp == Rejected(UnknownAnswer) && unchanged(self)
    ensures YesNo(Lower(arg)).Some? ==>
      resp == Done
      && self.partial == old(self.partial)[nick := old(self.partial)[nick].(interim := YesNo(Lower(arg)))]
    ensures old(DraftsValid(self.partial)) ==> DraftsValid(self.partial)
  {
    var token := Lower(arg);
    if token in YesAnswers {
      var d := self.partial[nick];
      self.partial := self.partial[nick := d.(interim := Some(true))];
      resp := Done;
    } else if token in NoAnswers {
      var d := self.partial[nick];
      self.partial := self.partial[nick := d.(interim := Some(false))];
      resp := Done;
    } else {
      resp := Rejected(UnknownAnswer);
    }
  }

  /** `?`: the status of the draft. */
  method ShowDraft(self: Poll, nick: Nick) returns (resp: Response)
    requires nick in self.partial
    ensures resp.DraftShown? && resp.view.ready == IsReady(self.partial[nick])
    ensures resp == DraftShown(View(self.partial[nick]))
  {
    resp := DraftShown(View(self.partial[nick]));
  }

  /** `> <text>`: appends an option; the reply names the first position holding that text. */
  method AddOption(self: Poll, nick: Nick, arg: string) returns (resp: Response)
    requires nick in self.partial
    modifies self
    ensures self.records == old(self.records)
    ensures !IsOptionText(arg) ==> resp == Rejected(NoOptionName) && unchanged(self)
    ensures IsOptionText(arg) ==>
      var d := old(self.partial)[nick];
      var options := (if d.options.None? then [] else d.options.value) + [arg];
      && self.partial == old(self.partial)[nick := d.(options := Some(options))]
      && resp == OptionAdded(FirstPosition(options, arg))
    ensures old(DraftsValid(self.partial)) ==> DraftsValid(self.partial)
  {
    if !IsOptionText(arg) {
      return Rejected(NoOptionName);
    }
    var d := self.partial[nick];
    var options := if d.options.None? then [] else d.options.value;
    options := options + [arg];
    self.partial := self.partial[nick := d.(options := Some(options))];
    resp := OptionAdded(FirstPosition(options, arg));
  }

  /**
   * `< <index>`: removes the option at a Python list index (negative ones
   * count from the end); removing the last one unsets the options.
   */
  method RemoveOption(self: Poll, nick: Nick, parsed: Option<int>) returns (resp: Response)
    requires nick in self.partial
    modifies self
    ensures self.records == old(self.records)
    ensures parsed.None? ==> resp == Rejected(NotAnIndex) && unchanged(self)
    ensures parsed.Some? && old(self.partial)[nick].options.None? ==> resp == Rejected(NoOptionsYet) && unchanged(self)
    ensures parsed.Some? && old(self.partial)[nick].options.Some? ==>
      var d := old(self.partial)[nick];
      var options := d.options.value;
      match PyIndex(|options|, parsed.value)
      case None => resp == Rejected(NoSuchOption) && unchanged(self)
      case Some(k) =>
        var rest := RemoveAt(options, k);
        && resp == OptionRemoved(parsed.value, options[k])
        && self.partial == old(self.partial)[nick := d.(options := if rest == [] then None else Some(rest))]
    ensures old(DraftsValid(self.partial)) ==> DraftsValid(self.partial)
  {
    if parsed.None? {
      return Rejected(NotAnIndex);
    }
    var index := parsed.value;
    var d := self.partial[nick];
    if d.options.None? {
      return Rejected(NoOptionsYet);
    }
    var options := d.options.value;
    var position := PyIndex(|options|, index);
    if position.None? {
      return Rejected(NoSuchOption);
    }
    var text := options[position.value];
    options := RemoveAt(options, position.value);
    self.partial := self.partial[nick := d.(options := if options == [] then None else Some(options))];
    resp := OptionRemoved(index, text);
  }

  /** `= <setting> <value>`: only `anon`/`anonymous`, with a yes/no token taken as typed. */
  method SetSetting(self: Poll, nick: Nick, arg: string) returns (resp: Response)
    requires nick in self.partial
    modifies self
    ensures self.records == old(self.records)
    ensures SplitSetting(arg).0 !in ["anon", "anonymous"] ==> resp == Rejected(UnknownSetting) && unchanged(self)
    ensures SplitSetting(arg).0 in ["anon", "anonymous"] && YesNo(SplitSetting(arg).1).None? ==>
      resp == Rejected(UnknownSettingValue) && unchanged(self)
    ensures SplitSetting(arg).0 in ["anon", "anonymous"] && YesNo(SplitSetting(arg).1).Some? ==>
      resp == Done
      && self.partial == old(self.partial)[nick := old(self.partial)[nick].(anonymous := YesNo(SplitSetting(arg).1).value)]
    ensures old(DraftsValid(self.partial)) ==> DraftsValid(self.partial)
  {
    var (key, value) := SplitSetting(arg);
    if key !in ["anon", "anonymous"] {
      return Rejected(UnknownSetting);
    }
    var d := self.partial[nick];
    if value in YesAnswers {
      self.partial := self.partial[nick := d.(anonymous := true)];
      resp := Done;
    } else if value in NoAnswers {
      self.partial := self.partial[nick := d.(anonymous := false)];
      resp := Done;
    } else {
      resp := Rejected(UnknownSettingValue);
    }
  }

  /** `~~~`: a ready draft becomes a closed poll of `nick` dated `now` and leaves edit mode. */
  method Commit(self: Poll, nick: Nick, now: Date) returns (resp: Response)
    requires nick in self.partial
    modifies self
    ensures !IsReady(old(self.partial)[nick]) ==> resp == Rejected(NotReady) && unchanged(self)
    ensures IsReady(old(self.partial)[nick]) ==>
      && resp == Done
      && self.records == old(self.records) + [Committed(old(self.partial)[nick], nick, now)]
      && self.partial == old(self.partial) - {nick}
    ensures old(self.Valid()) ==> self.Valid()
  {
    var d := self.partial[nick];
    if !IsReady(d) {
      return Rejected(NotReady);
    }
    ghost var before := self.records;
    CommittedIsWellFormed(d, nick, now);
    self.NewPoll(Committed(d, nick, now));
    self.partial := self.partial - {nick};
    resp := Done;
    assert self.records == before + [Committed(d, nick, now)];
    assert forall i :: 0 <= i < |before| ==> self.records[i] == before[i];
  }

  /** `***`: drops the draft and leaves edit mode. */
  method Abort(self: Poll, nick: Nick) returns (resp: Response)
    requires nick in self.partial
    modifies self
    ensures resp == Done
    ensures self.records == old(self.records)
    ensures self.partial == old(self.partial) - {nick}
    ensures old(DraftsValid(self.partial)) ==> DraftsValid(self.partial)
  {
    self.partial := self.partial - {nick};
    resp := Done;
  }

  // ---------------------------------------------------------------------------
  // Normal mode

  /** `open`/`close <poll>`. */
  method OpenClose(self: Poll, nick: Nick, name: string, open: bool) returns (resp: Response)
    modifies self
    ensures var st := OpenCloseStep(old(self.records), nick, name, open);
      resp == Reply(st.status) && self.records == st.records
    ensures self.partial == old(self.partial)
    ensures old(StoreValid(self.records)) ==> StoreValid(self.records)
  {
    if StoreValid(self.records) {
      OpenCloseKeepsValid(self.records, nick, name, open);
    }
    var poll := self.GetPoll(name);
    if poll.None? {
      return Rejected(NoSuchPoll);
    }
    if !CheckAccess(poll.value, nick) {
      return Rejected(NoAccess);
    }
    if open {
      self.Open(name);
    } else {
      self.Close(name);
    }
    resp := Done;
  }

  /** `delete`/`remove <poll>`. */
  method Delete(self: Poll, nick: Nick, name: string) returns (resp: Response)
    modifies self
    ensures var st := DeleteStep(old(self.records), nick, name);
      resp == Reply(st.status) && self.records == st.records
    ensures self.partial == old(self.partial)
    ensures old(StoreValid(self.records)) ==> StoreValid(self.records)
  {
    if StoreValid(self.records) {
      DeleteStepKeepsValid(self.records, nick, name);
    }
    var poll := self.GetPoll(name);
    if poll.None? {
      return Rejected(NoSuchPoll);
    }
    if !CheckAccess(poll.value, nick) {
      return Rejected(NoAccess);
    }
    if poll.value.open {
      return Rejected(CloseFirst);
    }
    var deleted := self.DelPoll(name);
    resp := Done;
  }

  /** `vote <poll> <index>`: votes, then looks the option's text up again for the reply. */
  method VoteCommand(self: Poll, nick: Nick, arg: string, parseInt: string -> Option<int>) returns (resp: Response)
    modifies self
    ensures self.partial == old(self.partial)
    ensures |Words(arg)| != 2 ==> resp == Rejected(Malformed) && self.records == old(self.records)
    ensures |Words(arg)| == 2 && parseInt(Words(arg)[1]).None? ==>
      resp == Rejected(BadIndex) && self.records == old(self.records)
    ensures |Words(arg)| == 2 && parseInt(Words(arg)[1]).Some? ==>
      var name := Words(arg)[0];
      var index := parseInt(Words(arg)[1]).value;
      var st := VoteStep(old(self.records), nick, index, name);
      && self.records == st.records
      && (st.status.Failure? ==> resp == Rejected(st.status.error))
      && (st.status == Success ==>
            OptionName(old(self.records), name, index).Some?
            && resp == Voted(index, OptionName(old(self.records), name, index).value))
    ensures old(StoreValid(self.records)) ==> StoreValid(self.records)
  {
    var words := Words(arg);
    if |words| != 2 {
      return Rejected(Malformed);
    }
    var index := parseInt(words[1]);
    if index.None? {
      return Rejected(BadIndex);
    }
    resp := VoteAndReply(self, nick, index.value, words[0]);
  }

  /** The part of `vote` after the arguments are read: the vote, then the text of the option voted for. */
  method VoteAndReply(self: Poll, nick: Nick, index: int, name: string) returns (resp: Response)
    modifies self
    ensures self.partial == old(self.partial)
    ensures var st := VoteStep(old(self.records), nick, index, name);
      && self.records == st.records
      && (st.status.Failure? ==> resp == Rejected(st.status.error))
      && (st.status == Success ==>
            OptionName(old(self.records), name, index).Some?
            && resp == Voted(index, OptionName(old(self.records), name, index).value))
    ensures old(StoreValid(self.records)) ==> StoreValid(self.records)
  {
    ghost var before := self.records;
    VoteKeepsOptionName(before, nick, index, name);
    var status := self.Vote(nick, index, name);
    if status.Failure? {
      return Rejected(status.error);
    }
    ghost var text := OptionName(self.records, name, index);
    assert text.Some?;
    ghost var i := Find(self.records, name).value;
    ghost var first := FirstIndexed(self.records[i].options, index).value;
    var poll := self.GetPoll(name);
    assert poll == Some(self.records[i]);
    var p := poll.value;
    var k := 0;
    while k < |p.options| && p.options[k].index != index
      invariant 0 <= k <= first
      invariant forall j :: 0 <= j < k ==> p.options[j].index != index
    {
      k := k + 1;
    }
    assert k == first;
    LabelLookup(p.options, index, k);
    resp := Voted(index, p.options[k].name);
  }

  /** The shared body of `unvote` and `delvote`: the first option holding `voter`, then `del_vote`. */
  method Retract(self: Poll, voter: Nick, name: string, missing: Error) returns (resp: Response)
    modifies self
    ensures var st := RetractStep(old(self.records), voter, name, missing);
      resp == Reply(st.status) && self.records == st.records
    ensures self.partial == old(self.partial)
    ensures old(StoreValid(self.records)) ==> StoreValid(self.records)
  {
    ghost var before := self.records;
    var poll := self.GetPoll(name);
    if poll.None? {
      return Rejected(NoSuchPoll);
    }
    ghost var i := Find(self.records, name).value;
    assert poll == Some(self.records[i]);
    var p := poll.value;
    ghost var held := HolderOf(p.options, voter);
    var k := 0;
    while k < |p.options| && voter !in p.options[k].votes
      invariant 0 <= k <= |p.options|
      invariant held.Some? ==> k <= held.value
      invariant forall j :: 0 <= j < k ==> voter !in p.options[j].votes
    {
      k := k + 1;
    }
    if k == |p.options| {
      assert RetractStep(self.records, voter, name, missing) == Step(Failure(missing), self.records);
      return Rejected(missing);
    }
    assert held == Some(k);
    assert RetractStep(self.records, voter, name, missing) == DelVoteStep(self.records, voter, p.options[k].index, name);
    var status := self.DelVote(voter, p.options[k].index, name);
    resp := Reply(status);
    if StoreValid(before) {
      RetractKeepsValid(before, voter, name, missing);
    }
  }

  /** `unvote <poll>`: retracts the caller's own vote. */
  method Unvote(self: Poll, nick: Nick, name: string) returns (resp: Response)
    modifies self
    ensures var st := UnvoteStep(old(self.records), nick, name);
      resp == Reply(st.status) && self.records == st.records
    ensures self.partial == old(self.partial)
    ensures old(StoreValid(self.records)) ==> StoreValid(self.records)
  {
    resp := Retract(self, nick, name, NoVoteToRemove);
  }

  /** `delvote`/`remvote <poll> <user>`: an admin retracts somebody's vote. */
  method Delvote(self: Poll, nick: Nick, arg: string) returns (resp: Response)
    modifies self
    ensures var st := DelvoteStep(old(self.records), nick, arg);
      resp == Reply(st.status) && self.records == st.records
    ensures self.partial == old(self.partial)
    ensures old(StoreValid(self.records)) ==> StoreValid(self.records)
  {
    if nick !in Admins {
      return Rejected(NotAdmin);
    }
    var words := Words(arg);
    if |words| != 2 {
      return Rejected(Malformed);
    }
    resp := Retract(self, words[1], words[0], UserDidNotVote);
  }

  /** `info <poll>`: the report of the first poll with that name. */
  method Info(self: Poll, name: string) returns (resp: Response)
    ensures self.GetPoll(name).None? ==> resp == Rejected(NoSuchPoll)
    ensures self.GetPoll(name).Some? ==> resp == InfoShown(ReportOf(self.GetPoll(name).value))
  {
    var poll := self.GetPoll(name);
    if poll.None? {
      return Rejected(NoSuchPoll);
    }
    var report := BuildReport(poll.value);
    resp := InfoShown(report);
  }

  /** The names and open flags `list` shows, one per stored poll in collection order. */
  function Listing(records: seq<PollRecord>): (r: seq<(string, bool)>)
    ensures |r| == |records|
    ensures forall i :: 0 <= i < |records| ==> r[i] == (records[i].name, records[i].open)
  {
    seq(|records|, i requires 0 <= i < |records| => (records[i].name, records[i].open))
  }

  /** `list`: every stored poll's name and whether it is open, in collection order. */
  method List(self: Poll) returns (resp: Response)
    ensures resp == Listed(Listing(self.records))
  {
    var polls := [];
    var i := 0;
    while i < |self.records|
      invariant 0 <= i <= |self.records|
      invariant |polls| == i
      invariant forall j :: 0 <= j < i ==> polls[j] == (self.records[j].name, self.records[j].open)
    {
      polls := polls + [(self.records[i].name, self.records[i].open)];
      i := i + 1;
    }
    resp := Listed(polls);
  }

  // ---------------------------------------------------------------------------
  // The dispatcher as a transition

  /** What one command leaves behind: the reply, the collection and the drafts. */
  datatype Outcome = Outcome(resp: Response, records: seq<PollRecord>, partial: map<Nick, Draft>)

  /** The edit-mode command `cmd` of a caller with the draft `partial[nick]`, word by word. */
  function EditStep(records: seq<PollRecord>, partial: map<Nick, Draft>, nick: Nick, cmd: string, arg: string,
                    parseInt: string -> Option<int>, now: Date): Outcome
    requires nick in partial
  {
    var d := partial[nick];
    if cmd == "#" then
      if !IsCodename(arg) then Outcome(Rejected(BadCodename), records, partial)
      else if Find(records, arg).Some? then Outcome(Rejected(CodenameTaken), records, partial)
      else Outcome(Done, records, partial[nick := d.(name := Some(arg))])
    else if cmd == "!" then
      Outcome(Done, records, partial[nick := d.(title := Some(arg))])
    else if cmd == "@" then
      (match YesNo(Lower(arg))
       case None => Outcome(Rejected(UnknownAnswer), records, partial)
       case Some(b) => Outcome(Done, records, partial[nick := d.(interim := Some(b))]))
    else if cmd == "?" then
      Outcome(DraftShown(View(d)), records, partial)
    else if cmd == ">" then
      if !IsOptionText(arg) then Outcome(Rejected(NoOptionName), records, partial)
      else
        var options := (if d.options.None? then [] else d.options.value) + [arg];
        Outcome(OptionAdded(FirstPosition(options, arg)), records, partial[nick := d.(options := Some(options))])
    else if cmd == "<" then
      (match parseInt(arg)
       case None => Outcome(Rejected(NotAnIndex), records, partial)
       case Some(index) =>
         if d.options.None? then Outcome(Rejected(NoOptionsYet), records, partial)
         else
           (match PyIndex(|d.options.value|, index)
            case None => Outcome(Rejected(NoSuchOption), records, partial)
            case Some(k) =>
              var rest := RemoveAt(d.options.value, k);
              Outcome(OptionRemoved(index, d.options.value[k]), records,
                      partial[nick := d.(options := if rest == [] then None else Some(rest))])))
    else if cmd == "=" then
      var (key, value) := SplitSetting(arg);
      if key !in ["anon", "anonymous"] then Outcome(Rejected(UnknownSetting), records, partial)
      else
        (match YesNo(value)
         case None => Outcome(Rejected(UnknownSettingValue), records, partial)
         case Some(b) => Outcome(Done, records, partial[nick := d.(anonymous := b)]))
    else if cmd == "~~~" then
      if !IsReady(d) then Outcome(Rejected(NotReady), records, partial)
      else Outcome(Done, records + [Committed(d, nick, now)], partial - {nick})
    else if cmd == "***" then
      Outcome(Done, records, partial - {nick})
    else
      Outcome(HelpShown, records, partial)
  }

  /** The normal-mode command `cmd`, word by word; the drafts are never touched. */
  function NormalStep(records: seq<PollRecord>, partial: map<Nick, Draft>, nick: Nick, cmd: string, arg: string,
                      parseInt: string -> Option<int>): Outcome
  {
    if cmd == "close" || cmd == "open" then
      var st := OpenCloseStep(records, nick, arg, cmd == "open");
      Outcome(Reply(st.status), st.records, partial)
    else if cmd == "vote" then
      var words := Words(arg);
      if |words| != 2 then Outcome(Rejected(Malformed), records, partial)
      else
        (match parseInt(words[1])
         case None => Outcome(Rejected(BadIndex), records, partial)
         case Some(index) =>
           var st := VoteStep(records, nick, index, words[0]);
           var text := OptionName(records, words[0], index);
           Outcome(if st.status == Success && text.Some? then Voted(index, text.value) else Reply(st.status),
                   st.records, partial))
    else if cmd == "delete" || cmd == "remove" then
      var st := DeleteStep(records, nick, arg);
      Outcome(Reply(st.status), st.records, partial)
    else if cmd == "info" then
      (match Find(records, arg)
       case None => Outcome(Rejected(NoSuchPoll), records, partial)
       case Some(i) => Outcome(InfoShown(ReportOf(records[i])), records, partial))
    else if cmd == "list" then
      Outcome(Listed(Listing(records)), records, partial)
    else if cmd == "unvote" then
      var st := UnvoteStep(records, nick, arg);
      Outcome(Reply(st.status), st.records, partial)
    else if cmd == "delvote" || cmd == "remvote" then
      var st := DelvoteStep(records, nick, arg);
      Outcome(Reply(st.status), st.records, partial)
    else
      Outcome(Rejected(UnknownCommand), records, partial)
  }

  /**
   * `poll(bot, trigger)` as a transition: the edit-mode words are looked at
   * only while `nick` has a draft, and every other word falls through to
   * normal mode.
   */
  function HandleStep(records: seq<PollRecord>, partial: map<Nick, Draft>, nick: Nick, cmd: string, arg: string,
                      parseInt: string -> Option<int>, now: Date): Outcome
  {
    if cmd == "" then Outcome(NoCommand, records, partial)
    else if nick !in partial && cmd == "create" then Outcome(EditModeEntered, records, partial[nick := EmptyDraft])
    else if nick !in partial && cmd == "help" then Outcome(HelpShown, records, partial)
    else if nick in partial && (cmd in EditCommands || cmd == "help") then EditStep(records, partial, nick, cmd, arg, parseInt, now)
    else NormalStep(records, partial, nick, cmd, arg, parseInt)
  }

  /** Replacing or dropping the entry of `k` leaves the other entries as they were. */
  lemma OtherEntriesKept(m: map<Nick, Draft>, k: Nick, v: Draft)
    ensures m[k := v] - {k} == m - {k}
    ensures (m - {k}) - {k} == m - {k}
  {
  }

  /**
   * An edit-mode command changes only the caller's draft, drops it only on
   * `~~~` or `***`, and changes the collection only on `~~~`.
   */
  lemma EditStepFrames(records: seq<PollRecord>, partial: map<Nick, Draft>, nick: Nick, cmd: string, arg: string,
                       parseInt: string -> Option<int>, now: Date)
    requires nick in partial
    ensures var o := EditStep(records, partial, nick, cmd, arg, parseInt, now);
      && o.partial - {nick} == partial - {nick}
      && (nick !in o.partial ==> cmd == "~~~" || cmd == "***")
      && (cmd != "~~~" ==> o.records == records)
  {
    var o := EditStep(records, partial, nick, cmd, arg, parseInt, now);
    if cmd == "~~~" || cmd == "***" {
      assert o.partial == partial || o.partial == partial - {nick};
      OtherEntriesKept(partial, nick, partial[nick]);
    } else if o.partial != partial {
      assert nick in o.partial && o.partial == partial[nick := o.partial[nick]];
      OtherEntriesKept(partial, nick, o.partial[nick]);
    }
  }

  /** A normal-mode command never touches the drafts; only the store commands touch the collection. */
  lemma NormalStepFrames(records: seq<PollRecord>, partial: map<Nick, Draft>, nick: Nick, cmd: string, arg: string,
                         parseInt: string -> Option<int>)
    ensures var o := NormalStep(records, partial, nick, cmd, arg, parseInt);
      && o.partial == partial
      && (cmd !in StoreCommands ==> o.records == records)
      && (cmd !in NormalCommands ==> o == Outcome(Rejected(UnknownCommand), records, partial))
  {
  }

  /**
   * Whatever the command, only the caller's draft can change; it appears only
   * on `create` and disappears only on `~~~` or `***`; the collection changes
   * only under the store commands; and `create` during editing or an edit
   * word outside it is an unknown command that changes nothing.
   */
  lemma HandleStepFrames(records: seq<PollRecord>, partial: map<Nick, Draft>, nick: Nick, cmd: string, arg: string,
                         parseInt: string -> Option<int>, now: Date)
    ensures var o := HandleStep(records, partial, nick, cmd, arg, parseInt, now);
      && o.partial - {nick} == partial - {nick}
      && (nick in partial && nick !in o.partial ==> cmd == "~~~" || cmd == "***")
      && (nick !in partial && nick in o.partial ==> cmd == "create")
      && (cmd !in StoreCommands ==> o.records == records)
      && (nick in partial && cmd == "create" ==> o == Outcome(Rejected(UnknownCommand), records, partial))
      && (nick !in partial && cmd in EditCommands ==> o == Outcome(Rejected(UnknownCommand), records, partial))
  {
    if cmd == "" {
    } else if nick !in partial && cmd == "create" {
      OtherEntriesKept(partial, nick, EmptyDraft);
    } else if nick !in partial && cmd == "help" {
    } else if nick in partial && (cmd in EditCommands || cmd == "help") {
      EditStepFrames(records, partial, nick, cmd, arg, parseInt, now);
    } else {
      NormalStepFrames(records, partial, nick, cmd, arg, parseInt);
    }
  }

  // ---------------------------------------------------------------------------
  // The dispatcher

  /** The edit-mode branch, for a caller with a draft and one of the edit-mode words. */
  method HandleEdit(self: Poll, nick: Nick, cmd: string, arg: string, parseInt: string -> Option<int>, now: Date)
    returns (resp: Response)
    requires nick in self.partial
    requires cmd in EditCommands || cmd == "help"
    modifies self
    ensures Outcome(resp, self.records, self.partial)
      == EditStep(old(self.records), old(self.partial), nick, cmd, arg, parseInt, now)
    ensures old(self.Valid()) ==> self.Valid()
  {
    if cmd == "#" {
      resp := SetName(self, nick, arg);
    } else if cmd == "!" {
      resp := SetTitle(self, nick, arg);
    } else if cmd == "@" {
      resp := SetInterim(self, nick, arg);
    } else if cmd == "?" {
      resp := ShowDraft(self, nick);
    } else if cmd == ">" {
      resp := AddOption(self, nick, arg);
    } else if cmd == "<" {
      resp := RemoveOption(self, nick, parseInt(arg));
    } else if cmd == "=" {
      resp := SetSetting(self, nick, arg);
    } else if cmd == "~~~" {
      resp := Commit(self, nick, now);
    } else if cmd == "***" {
      resp := Abort(self, nick);
    } else {
      resp := HelpShown;
    }
  }

  /** The command words of normal mode, which a caller with a draft can use too. */
  const NormalCommands: seq<string> := ["close", "open", "vote", "delete", "remove", "info", "list", "unvote", "delvote", "remvote"]

  /** The normal-mode branch: any other word is an unknown command. */
  method HandleNormal(self: Poll, nick: Nick, cmd: string, arg: string, parseInt: string -> Option<int>)
    returns (resp: Response)
    modifies self
    ensures Outcome(resp, self.records, self.partial)
      == NormalStep(old(self.records), old(self.partial), nick, cmd, arg, parseInt)
    ensures old(StoreValid(self.records)) ==> StoreValid(self.records)
  {
    if cmd == "close" || cmd == "open" {
      resp := OpenClose(self, nick, arg, cmd == "open");
    } else if cmd == "vote" {
      resp := VoteCommand(self, nick, arg, parseInt);
    } else if cmd == "delete" || cmd == "remove" {
      resp := Delete(self, nick, arg);
    } else if cmd == "info" {
      resp := Info(self, arg);
    } else if cmd == "list" {
      resp := List(self);
    } else if cmd == "unvote" {
      resp := Unvote(self, nick, arg);
    } else if cmd == "delvote" || cmd == "remvote" {
      resp := Delvote(self, nick, arg);
    } else {
      resp := Rejected(UnknownCommand);
    }
  }

  /**
   * `poll(bot, trigger)` for the command word `cmd` and the rest `arg` of a
   * message from `nick`. The edit-mode commands are looked at only while
   * `nick` has a draft; every other word falls through to the normal-mode
   * commands, so `create` during editing is an unknown command. `parseInt`
   * stands for `int()`, and `now` for the clock read at commit.
   */
  method Handle(self: Poll, nick: Nick, cmd: string, arg: string, parseInt: string -> Option<int>, now: Date)
    returns (resp: Response)
    modifies self
    ensures Outcome(resp, self.records, self.partial)
      == HandleStep(old(self.records), old(self.partial), nick, cmd, arg, parseInt, now)
    ensures old(self.Valid()) ==> self.Valid()
  {
    if cmd == "" {
      return NoCommand;
    }
    if nick !in self.partial && cmd == "create" {
      resp := Create(self, nick);
    } else if nick !in self.partial && cmd == "help" {
      resp := HelpShown;
    } else if nick in self.partial && (cmd in EditCommands || cmd == "help") {
      resp := HandleEdit(self, nick, cmd, arg, parseInt, now);
    } else {
      resp := HandleNormal(self, nick, cmd, arg, parseInt);
    }
  }
}
