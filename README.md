# sopel-polls: a verified model of the poll plugin

This project models the core of the sopel `.poll` plugin (`poll.py`) in
Dafny and proves properties of the model. poll.py has three cooperating pieces:

- **The poll store and voting engine.** The `Poll` object keeps the polls in a
  MongoDB collection. It creates, finds, opens, closes and deletes polls, and
  it adds and withdraws votes with `add_vote`, `del_vote` and `vote`.
- **The draft builder.** A user in edit mode builds a draft with the commands
  `#`, `!`, `@`, `>`, `<`, `=` and `?`. `~~~` turns a ready draft into a stored
  poll, and `***` drops it.
- **Access control and reports.** `open`, `close` and `delete` are for the
  poll's author and the admins only. `delete` is refused while the poll is
  open. `info` reports on a poll, hiding the tallies while an open poll has no
  interim results, and hiding voter lists for anonymous polls.

Modules, leaves first:

- `PollModel` (poll_model.dfy): the documents and the collection as values.
  It holds the `find_one` query, the update filter `{"name", "options.index"}`,
  the `$push`, `$pull` and `$set` updates as functions, and the vote primitives
  as transitions of the whole collection (`AddVoteStep`, `DelVoteStep`,
  `VoteStep`). It also states the invariants: options labelled by position, no
  nick twice in one option, and at most one vote per nick per poll (the
  single-active-vote rule).
- `Voting` (voting.dfy): lemmas about those transitions. They cover the
  refusals and their order, exactly what changes on success, the round trip
  `del_vote` after `add_vote`, the vote switch, and preservation of the
  invariants.
- `Drafts` (drafts.dfy): the draft value, `isReady`, and the two regular
  expressions with Python's `re` semantics. Python's `$` also matches before a
  final newline, and `\S` uses the code points `str.isspace` accepts. The module
  also has the yes/no vocabulary, `str.split`, Python list indexing with
  negative indices, `list.pop`, `list.index`, the commit document and the `?`
  view.
- `Reports` (reports.dfy): the `info` report as a structured value
  (`ReportOf`). `BuildReport` has the handler's loops and is proved equal to
  `ReportOf`. Lemmas cover what a report shows, percentages between 0 and 100
  that add up to 100, and a total that counts distinct voters.
- `PollStore` (store.dfy): the `Poll` class with `records` (the collection)
  and `partial` (the drafts) as fields. Its store methods change `records` in
  place, and each is proved against its transition function. `Admins` and
  `CheckAccess` are here too.
- `Commands` (commands.dfy): the `poll()` handler. It has one method per
  edit-mode command, changing `partial` (and `records` on commit), and one per
  normal-mode command, each proved against a transition function. The
  dispatcher `Handle` is proved equal to `HandleStep`, which routes each
  command word to its operation. The lemmas about `HandleStep` show that only
  the caller's draft ever changes and that the store changes only on store
  commands. `Handle` also keeps the invariants.

Replies are modelled as a `Response` value, not as IRC text. A rejected
command carries one `Error` constructor per reply of the source.

The model follows the code where it departs from a tidier design of a poll store:

- Poll names are not unique. Uniqueness is only checked when `#` sets the name
  (poll.py:240). A commit never refuses a duplicate and cannot fail, so two
  drafts given the same free name can both be committed. The collection is
  therefore a sequence. The store methods and the update filters act on the
  first document with a given name.
- Vote lists are lists, not sets. `$pull` removes every occurrence, and
  `vote` for the option already held withdraws the vote and appends it again
  (`Voting.VoteAgainMovesToEnd`).
- `create` during editing does not reset the draft. It falls through to the
  normal-mode commands and is answered as an unknown command.
- `unvote` and `delvote` look for the caller's vote before `del_vote` checks
  whether the poll is open. So "no vote" is reported before "poll is closed".
- The `>` reply gives the first position holding the option text
  (`list.index`). For a repeated text, that is the earlier copy's position, not
  the new one's.

`add_vote` on its own does not keep the single-active-vote rule, since it looks
at one option only. The plugin calls it only through `vote`, which withdraws
the old vote first, and the model proves `vote` keeps the rule.

## Model

| member | source | states |
|---|---|---|
| `PollModel.Find` | poll.py:61-62 | `find_one({"name"})`: the position of the first document with that name; none exactly when no document has it |
| `PollModel.FirstIndexed` | poll.py:83-89 | the first option whose label equals the index, as the filter's `opt[0]` and the positional `$` pick it; none exactly when no option has that label |
| `PollModel.HolderOf` | poll.py:132-135 | the first option whose votes hold the user (`already_voted[0]`); none exactly when the user holds no vote |
| `PollModel.FindWithIndex` | poll.py:92-95 | the first document matching the update filter: right name and an option with that label |
| `PollModel.Remove` | poll.py:114-118 | `$pull` removes every occurrence of the user and keeps every other nick's multiplicity; without the user the list is unchanged |
| `Voting.UpdateTargetsFound` | poll.py:92-96 | once the checks passed, the `$push`/`$pull` filter hits the same document `get_poll` returned |
| `Voting.AddVoteRefusals` | poll.py:77-91 | the refusals "no such poll", "poll is closed", "no such index", "already voted" in this order, each exactly under its condition, none changing the store |
| `Voting.AddVoteAppends` | poll.py:92-97 | on success the user is appended to the checked option of the checked poll and nothing else changes |
| `Voting.DelVoteRefusals` | poll.py:99-113 | the same first three refusals, then "haven't voted", each exactly under its condition, none changing the store |
| `Voting.DelVoteRemoves` | poll.py:114-119 | on success the user is removed from that option only |
| `Voting.DelVoteUndoesAddVote` | poll.py:77-119 | `del_vote` after a successful `add_vote` of the same user and index succeeds and restores the store exactly |
| `Voting.AddVoteKeepsShape` | poll.py:92-96 | `add_vote` changes only vote lists: documents, their fields and option labels and texts stay |
| `Voting.DelVoteKeepsShape` | poll.py:114-118 | `del_vote` changes only vote lists |
| `Voting.VoteKeepsShape` | poll.py:121-139 | `vote` changes only vote lists |
| `Voting.VoteRefusals` | poll.py:121-131 | `vote` refuses a missing poll, a closed poll and an absent label in this order, changing nothing, and succeeds in every other case |
| `Voting.VoteUpdate` | poll.py:132-139 | on a poll labelled by position, `vote` replaces the document by the one with the old vote withdrawn and the new one appended |
| `Voting.VoteHoldsExactlyTarget` | poll.py:121-139 | if the user held at most one vote, afterwards they hold exactly the target option; other nicks and other documents are untouched |
| `Voting.VoteAgainMovesToEnd` | poll.py:132-139 | voting for the option already held succeeds and moves the user to the end of that option's votes |
| `Voting.WithdrawKeepsWellFormed` | poll.py:136-137 | withdrawing the single vote keeps the poll well formed and leaves the user without a vote |
| `Voting.VoteKeepsValid` | poll.py:121-139 | `vote` keeps every document well formed, the single-active-vote rule included |
| `Voting.DelVoteKeepsValid` | poll.py:99-119 | `del_vote` keeps every document well formed |
| `Voting.SetOpenKeepsValid` | poll.py:67-75 | `open` and `close` keep every document well formed |
| `Voting.DeleteKeepsValid` | poll.py:64-65 | `delete_one` keeps every remaining document well formed |
| `Drafts.Lower` | poll.py:251-255 | `arg.lower()` on ASCII letters, character by character, same length |
| `Drafts.SplitSetting` | poll.py:322-326 | `split(" ", 1)` with the `ValueError` fallback: the key holds no space, and key, space and value give back the argument |
| `Drafts.Words` | poll.py:404-408 | `split(" ")`: the pieces hold no space and joined by single spaces give back the argument |
| `Drafts.PyIndex` | poll.py:311-316 | a Python list index is valid exactly in `-n .. n-1` and designates position `index mod n` |
| `Drafts.RemoveAt` | poll.py:316 | `pop(k)`: one element shorter, the others in order |
| `Drafts.FirstPosition` | poll.py:297 | `list.index`: the first position holding the text |
| `Drafts.CommittedOptions` | poll.py:347-348 | the committed options are labelled `0 .. n-1` in insertion order, with the draft's texts and no votes |
| `Drafts.CommittedIsWellFormed` | poll.py:342-357 | a committed ready draft is a closed, well-formed poll of its author with the draft's name, title, interim and anonymous settings and at least two options |
| `Drafts.View` | poll.py:262-288 | `?` shows name, title and options when truthy and interim when not `None` (`False` as "no"), and reports "ready" exactly when name, title, interim and more than one option are set, as `isReady` (poll.py:141-148) demands |
| `Reports.BuildReport` | poll.py:452-482 | the loops of `info` compute exactly `ReportOf`: the total, the labels in withheld mode, one line per option otherwise |
| `Reports.ReportShape` | poll.py:444-482 | withheld mode exactly while open without interim results, with only labels; otherwise per-option counts, percentages in 0..100 that are 0 when nobody voted, and voter lists exactly when not anonymous |
| `Reports.CountWithinTotal` | poll.py:463-467 | no option's count exceeds the total |
| `Reports.SumPercentOfRows` | poll.py:469-474 | the percentages of the rows add up to the percentage of all their votes together |
| `Reports.PercentagesSumTo100` | poll.py:469-474 | with at least one vote, the exact percentages of a full report add up to 100 |
| `Reports.TotalCountsVoters` | poll.py:463-466 | under the single-active-vote rule the total is the number of distinct voters |
| `Reports.ReportTotalCountsVoters` | poll.py:468 | the total an `info` report shows for a well-formed poll is the number of voters |
| `Reports.PercentExample` | poll.py:469-474 | three votes and one vote give 75% and 25% |
| `PollStore.Poll.GetPoll` | poll.py:61-62 | none exactly when no document has the name; otherwise a document with that name, preceded by none with it |
| `PollStore.Poll.NewPoll` | poll.py:50-59 | the document is appended to the collection; drafts unchanged |
| `PollStore.Poll.DelPoll` | poll.py:64-65 | removes the first document with the name; returns 1 then, else 0 and the collection is unchanged |
| `PollStore.Poll.Open` | poll.py:67-70 | sets `open` on the first document with that name only |
| `PollStore.Poll.Close` | poll.py:72-75 | clears `open` on the first document with that name only |
| `PollStore.Poll.AddVote` | poll.py:77-97 | result and new collection are those of `AddVoteStep` |
| `PollStore.Poll.DelVote` | poll.py:99-119 | result and new collection are those of `DelVoteStep` |
| `PollStore.Poll.Vote` | poll.py:121-139 | the sequence of `del_vote` and `add_vote` yields exactly `VoteStep`, and it keeps the collection well formed |
| `Commands.OpenCloseGated` | poll.py:389-402 | `open`/`close` refuse a missing poll, then an actor who is neither author nor admin, changing nothing; otherwise only that poll's `open` flag changes |
| `Commands.DeleteGated` | poll.py:429-443 | `delete` refuses a missing poll, an actor without access, then an open poll, changing nothing; otherwise exactly that poll is removed and the others keep their order |
| `Commands.OpenPollsSurviveDelete` | poll.py:429-443 | whatever the actor and name, `delete` never removes an open poll |
| `Commands.DelvoteAdminOnly` | poll.py:512-521 | `delvote` refuses every non-admin before looking at anything, then a malformed argument, changing nothing |
| `Commands.RetractOutcomes` | poll.py:494-540 | on a well-formed store, `unvote`/`delvote` refuse a missing poll, a voter without a vote, then a closed poll; they never meet "haven't voted" and succeed exactly when the poll is open and the voter has a vote |
| `Commands.RetractRemovesVote` | poll.py:526-537 | a successful retraction takes the voter out of every option of that poll and changes nothing else |
| `Commands.RetractKeepsValid` | poll.py:494-540 | retracting keeps every document well formed |
| `Commands.DelvoteKeepsValid` | poll.py:512-540 | `delvote` keeps every document well formed |
| `Commands.OpenCloseKeepsValid` | poll.py:389-402 | `open`/`close` keep every document well formed |
| `Commands.DeleteStepKeepsValid` | poll.py:429-443 | `delete` keeps every remaining document well formed |
| `Commands.VoteKeepsOptionName` | poll.py:417-424 | after a successful vote the option with that label still exists with the same text, so the reply's lookup finds it |
| `Commands.LabelLookup` | poll.py:419-422 | the reply's loop stops at the first option with that label |
| `Commands.UnvoteAsWritten` | poll.py:494-511 | `unvote` as written crashes exactly when the poll exists and the caller holds no vote |
| `Commands.UnvoteWithoutVoteCrashes` | poll.py:503-505 | a concrete poll and caller for which the handler as written crashes and the corrected one refuses |
| `Commands.UnvoteStep` | poll.py:494-511 | the corrected `unvote` refuses a caller without a vote with "no vote to remove", changing nothing |
| `Commands.UnvoteCorrected` | poll.py:494-511 | the corrected `unvote` agrees with the handler as written wherever that one does not crash |
| `Commands.Create` | poll.py:201-214 | `create` outside edit mode stores an empty draft |
| `Commands.SetName` | poll.py:234-245 | `#` refuses a malformed codename, then one a stored poll has, leaving the draft unchanged; otherwise sets the name; drafts stay valid |
| `Commands.SetTitle` | poll.py:246-249 | `!` sets any title, the empty one included |
| `Commands.SetInterim` | poll.py:250-261 | `@` sets interim to the meaning of the lowercased token; an unknown token is refused and changes nothing |
| `Commands.ShowDraft` | poll.py:262-288 | `?` shows the view of the draft, ready exactly when `isReady` holds |
| `Commands.AddOption` | poll.py:289-299 | `>` refuses a text starting with whitespace; otherwise it turns unset options into a list and appends, replying with the first position of the text |
| `Commands.RemoveOption` | poll.py:300-320 | `<` refuses a non-integer, unset options, and an index outside `-n .. n-1`, changing nothing; otherwise it removes that option and unsets the options when none remain |
| `Commands.SetSetting` | poll.py:321-341 | `= anon`/`= anonymous` sets anonymity from the token as typed; an unknown token or setting is refused and changes nothing |
| `Commands.Commit` | poll.py:342-360 | `~~~` is refused unless the draft is ready; otherwise it appends the committed poll and removes the draft, keeping everything valid |
| `Commands.Abort` | poll.py:361-364 | `***` removes the draft unconditionally |
| `Commands.OpenClose` | poll.py:389-402 | reply and new collection are those of `OpenCloseStep` |
| `Commands.Delete` | poll.py:429-443 | reply and new collection are those of `DeleteStep` |
| `Commands.VoteCommand` | poll.py:403-428 | a malformed argument or a non-integer index is refused with no change; otherwise the outcome of `vote`, with the voted option's text in the reply |
| `Commands.VoteAndReply` | poll.py:414-425 | the store ends as `VoteStep` leaves it; a success reply carries the text of the option with that label |
| `Commands.Retract` | poll.py:526-540 | reply and new collection are those of `RetractStep`, keeping the store valid |
| `Commands.Unvote` | poll.py:494-511 | reply and new collection are those of the corrected `unvote` |
| `Commands.Delvote` | poll.py:512-540 | reply and new collection are those of `DelvoteStep` |
| `Commands.Info` | poll.py:444-483 | a missing poll is refused; otherwise the reply is `ReportOf` the first poll with that name |
| `Commands.Listing` | poll.py:488-492 | one entry per stored poll, in collection order: its name and whether it is open |
| `Commands.List` | poll.py:484-493 | the loop builds exactly `Listing` of the collection; an empty collection gives the empty listing (the "No polls." reply) |
| `Commands.HandleEdit` | poll.py:231-387 | reply, collection and drafts are those of `EditStep`: each edit word runs its own change of the caller's draft (`#` name, `!` title, `@` interim, `>` append, `<` remove, `=` anonymity, `?` view, `~~~` commit, `***` abort, `help`), keeping everything valid |
| `Commands.HandleNormal` | poll.py:389-543 | reply and collection are those of `NormalStep`: `open`/`close`, `vote`, `delete`/`remove`, `info`, `list`, `unvote`, `delvote`/`remvote` each run their own operation; any other word is an unknown command |
| `Commands.Handle` | poll.py:192-543 | reply, collection and drafts are those of `HandleStep`: an empty word does nothing, `create` and `help` outside edit mode, the edit words only in edit mode, everything else in normal mode; invariants are kept |
| `Commands.EditStepFrames` | poll.py:231-364 | an edit-mode command changes only the caller's draft, drops it only on `~~~` or `***`, and changes the collection only on `~~~` |
| `Commands.NormalStepFrames` | poll.py:389-543 | a normal-mode command never touches the drafts, changes the collection only under a store command, and an unknown word changes nothing |
| `Commands.HandleStepFrames` | poll.py:192-543 | only the caller's draft changes; it appears only on `create` and goes only on `~~~` or `***`; the collection changes only under a store command; `create` while editing and edit words outside edit mode are unknown commands that change nothing |

## Left out

- MongoDB client setup, `create_index` and `__del__` (poll.py:27-35). These are I/O plumbing. `PollStore.Poll.constructor` starts from a given collection with no drafts.
- The `updates` migration (poll.py:37-48). It is a one-off startup step on old documents.
- `bar()` and the rounding of percentages to one decimal (poll.py:158-188, 474). These are floating-point work and IRC glyphs. `Reports.Percent` is the exact real `100 * count / total`, and 0 when the total is 0.
- The width `maxLen` (poll.py:454-457, 464-467). It only pads the text.
- All reply texts, IRC control codes, the help texts and the `list` formatting (poll.py:211-229, 365-387, 489-492). `Response` only records which reply is given.
- `datetime.utcnow()` (poll.py:349). It becomes the `now` parameter of `Commit` and `Handle`, and the date is opaque.
- `trigger.group(2)` splitting into command word and argument (poll.py:193-200). `Handle` takes them already split; a missing or empty command word is `""`.
- Python's `int()` (poll.py:302, 410). It becomes the `parseInt` parameter: an integer, or `None` where `int()` raises `ValueError`.
- The race between `get_poll` and the update that follows, and concurrent users. The model runs commands one at a time.
- `Drafts.Lower`: does not model Unicode lowercasing beyond ASCII. The only non-ASCII character that `str.lower()` maps to an ASCII letter is the Kelvin sign (to `k`), and no yes/no token contains `k`. So membership in the yes/no lists comes out the same.
- The draft's `date` key (poll.py:206). It is always `None` and is never read.
- MongoDB's natural order. `find_one`, `find_one_and_update`, `delete_one` and `find` without a sort see the documents in the server's unspecified scan order (poll.py:59-119, 488). The model takes that order to be insertion order. This matters only when two stored polls share a name.

## Findings

| source | as written | input that shows it | evidently intended | confidence | as-written member | corrected member |
|---|---|---|---|---|---|---|
| poll.py:499-505 | when the caller holds no vote, the `for ... else` replies and then goes on to `del_vote(trigger.nick, index, arg)`; no statement of this branch bound `index`, so `UnboundLocalError` is raised | an open poll `colour` with options `red` and `blue` and no votes; `B` sends `unvote colour` | reply "you need to vote first" and stop, changing nothing, as `delvote` does at poll.py:530-533 | not executed | `Commands.UnvoteAsWritten` | `Commands.UnvoteStep` |
