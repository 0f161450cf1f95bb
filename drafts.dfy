/**
 * The poll builder's values: the draft a user edits in edit mode, the
 * readiness test `Poll.isReady`, the two argument patterns `Poll.codename`
 * and `Poll.option`, the yes/no vocabulary, and the document a commit
 * turns a ready draft into.
 */
module Drafts {
  import opened PollModel

  /** The tokens `@` and `= anon` accept as yes and as no (poll.py:10-11). */
  const YesAnswers: seq<string> := ["on", "yes", "+", "yep", "yup", "yeah"]
  const NoAnswers: seq<string> := ["off", "no", "nope", "nop", "no way", "nein"]

  /**
   * An entry of `Poll.partial`. `None` is Python's `None`; `options` is the
   * list of option texts in the order they were added.
   */
  datatype Draft = Draft(
    name: Option<string>,
    title: Option<string>,
    options: Option<seq<string>>,
    interim: Option<bool>,
    anonymous: bool)

  /** The draft `create` stores: every field unset, not anonymous. */
  const EmptyDraft := Draft(None, None, None, None, false)

  /** Python truthiness of an optional string: set and not empty. */
  predicate IsSetText(s: Option<string>)
  {
    s.Some? && s.value != ""
  }

  /**
   * `Poll.isReady`: name and title truthy, interim not `None` (so `False`
   * counts as set), options truthy and longer than one.
   */
  predicate IsReady(d: Draft)
  {
    && IsSetText(d.name)
    && IsSetText(d.title)
    && d.interim.Some?
    && d.options.Some? && |d.options.value| > 0
    && |d.options.value| > 1
  }

  /** The invariant the edit commands keep on every draft. */
  ghost predicate DraftOk(d: Draft)
  {
    && (d.options.Some? ==> |d.options.value| > 0)
    && (d.name.Some? ==> IsCodename(d.name.value))
  }

  ghost predicate DraftsValid(partial: map<Nick, Draft>)
  {
    forall n :: n in partial ==> DraftOk(partial[n])
  }

  // ---------------------------------------------------------------------------
  // Argument patterns

  predicate IsCodenameChar(c: char)
  {
    'A' <= c <= 'Z' || 'a' <= c <= 'z' || '0' <= c <= '9' || c == '_' || c == '.' || c == '-'
  }

  predicate IsCodenameBody(s: string)
  {
    3 <= |s| <= 30 && forall i :: 0 <= i < |s| ==> IsCodenameChar(s[i])
  }

  /**
   * `re.match("^[A-Za-z0-9_.-]{3,30}$", s)`. Python's `$` also matches just
   * before a newline that ends the string, so one trailing newline is let
   * through.
   */
  predicate IsCodename(s: string)
  {
    IsCodenameBody(s) || (|s| > 0 && s[|s| - 1] == '\n' && IsCodenameBody(s[..|s| - 1]))
  }

  /** The characters Python's `\s` matches in a `str` pattern (those `str.isspace` accepts). */
  predicate IsSpace(c: char)
  {
    var n := c as int;
    || 0x09 <= n <= 0x0D || 0x1C <= n <= 0x20 || n == 0x85 || n == 0xA0 || n == 0x1680
    || 0x2000 <= n <= 0x200A || n == 0x2028 || n == 0x2029 || n == 0x202F || n == 0x205F || n == 0x3000
  }

  /**
   * `re.match("^\S.*$", s)`: a first character that is not whitespace, then
   * no newline, except one that ends the string.
   */
  predicate IsOptionText(s: string)
  {
    |s| > 0 && !IsSpace(s[0]) && forall i :: 1 <= i < |s| - 1 ==> s[i] != '\n'
  }

  // ---------------------------------------------------------------------------
  // Tokens

  function LowerChar(c: char): char
  {
    if 'A' <= c <= 'Z' then (c as int + 32) as char else c
  }

  /** `str.lower()` on the ASCII letters. */
  function Lower(s: string): (r: string)
    ensures |r| == |s| && forall i :: 0 <= i < |s| ==> r[i] == LowerChar(s[i])
  {
    if |s| == 0 then [] else [LowerChar(s[0])] + Lower(s[1..])
  }

  /** The meaning of a yes/no token: `Some(true)` in the yes list, `Some(false)` in the no list. */
  function YesNo(token: string): Option<bool>
  {
    if token in YesAnswers then Some(true)
    else if token in NoAnswers then Some(false)
    else None
  }

  /**
   * `set_name, set_arg = arg.split(" ", 1)` with its `ValueError` fallback
   * `set_name, set_arg = arg, ""` when `arg` holds no space.
   */
  function SplitSetting(arg: string): (r: (string, string))
    ensures ' ' !in r.0
    ensures ' ' in arg ==> arg == r.0 + " " + r.1
    ensures ' ' !in arg ==> r == (arg, "")
  {
    if |arg| == 0 then ("", "")
    else if arg[0] == ' ' then ("", arg[1..])
    else
      var rest := SplitSetting(arg[1..]);
      assert arg == [arg[0]] + arg[1..];
      ([arg[0]] + rest.0, rest.1)
  }

  /** The words joined back with single spaces. */
  function JoinWords(words: seq<string>): string
    requires |words| > 0
  {
    if |words| == 1 then words[0] else words[0] + " " + JoinWords(words[1..])
  }

  /** `s.split(" ")`: the pieces between single spaces, empty pieces included. */
  function Words(s: string): (r: seq<string>)
    ensures |r| > 0 && JoinWords(r) == s
    ensures forall k :: 0 <= k < |r| ==> ' ' !in r[k]
    decreases |s|
  {
    if ' ' !in s then [s]
    else
      var (head, rest) := SplitSetting(s);
      [head] + Words(rest)
  }

  // ---------------------------------------------------------------------------
  // Option list edits

  /** The position Python's `list[index]` designates in a list of length `n`, if any. */
  function PyIndex(n: nat, index: int): (r: Option<nat>)
    ensures r.Some? <==> -(n as int) <= index < n
    ensures r.Some? ==> r.value < n && r.value == index % n
  {
    if 0 <= index < n then Some(index)
    else if -(n as int) <= index < 0 then Some(index + n)
    else None
  }

  /** `list.index(x)`: the first position holding `x`. */
  function FirstPosition(s: seq<string>, x: string): (r: nat)
    requires x in s
    ensures r < |s| && s[r] == x
    ensures forall j :: 0 <= j < r ==> s[j] != x
  {
    if s[0] == x then 0 else 1 + FirstPosition(s[1..], x)
  }

  /** `list.pop(k)` on a valid position: the list without its `k`-th element. */
  function RemoveAt<T>(s: seq<T>, k: nat): (r: seq<T>)
    requires k < |s|
    ensures |r| == |s| - 1
    ensures forall j :: 0 <= j < |r| ==> r[j] == if j < k then s[j] else s[j + 1]
  {
    s[..k] + s[k + 1..]
  }

  // ---------------------------------------------------------------------------
  // Commit

  /** `[{"index": pos, "name": name, "votes": []} for pos, name in enumerate(options)]`. */
  function CommittedOptions(names: seq<string>): (r: seq<PollOption>)
    ensures |r| == |names|
    ensures forall k :: 0 <= k < |r| ==> r[k].index == k && r[k].name == names[k] && r[k].votes == []
  {
    if |names| == 0 then []
    else CommittedOptions(names[..|names| - 1]) + [PollOption(|names| - 1, names[|names| - 1], [])]
  }

  /** The document `~~~` hands to `new_poll` for a ready draft of `author`. */
  function Committed(d: Draft, author: Nick, date: Date): PollRecord
    requires IsReady(d)
  {
    PollRecord(author, d.name.value, d.title.value, date, false, d.interim.value, d.anonymous,
               CommittedOptions(d.options.value))
  }

  /**
   * A committed poll is closed, keeps the draft's settings, has at least two
   * options labelled `0 .. n-1` in insertion order with no votes, and so is
   * well formed.
   */
  lemma CommittedIsWellFormed(d: Draft, author: Nick, date: Date)
    requires IsReady(d)
    ensures var p := Committed(d, author, date);
      && WellFormed(p)
      && !p.open && p.author == author && p.date == date
      && p.name == d.name.value && p.name != ""
      && p.title == d.title.value && p.title != ""
      && p.interim == d.interim.value && p.anonymous == d.anonymous
      && |p.options| == |d.options.value| >= 2
      && forall k :: 0 <= k < |p.options| ==>
           p.options[k] == PollOption(k, d.options.value[k], [])
  {
    var p := Committed(d, author, date);
    forall u ensures AtMostOneHolder(p.options, u) {
    }
    forall k | 0 <= k < |p.options| ensures NoRepeats(p.options[k].votes) {
      assert p.options[k].votes == [];
    }
  }

  // ---------------------------------------------------------------------------
  // `?`: the status report of a draft

  /** What `?` shows: a field it reports as "not set" is `None`. */
  datatype DraftView = DraftView(
    name: Option<string>,
    title: Option<string>,
    interim: Option<bool>,
    options: Option<seq<string>>,
    anonymous: bool,
    ready: bool)

  /** The `?` report: name, title and options count as set when truthy, interim when not `None`. */
  function View(d: Draft): (v: DraftView)
    ensures v.ready <==>
      v.name.Some? && v.title.Some? && v.interim.Some? && v.options.Some? && |v.options.value| > 1
    ensures v.ready == IsReady(d)
    ensures v.name.Some? <==> IsSetText(d.name)
    ensures v.title.Some? <==> IsSetText(d.title)
    ensures v.options.Some? <==> d.options.Some? && |d.options.value| > 0
    ensures v.anonymous == d.anonymous && v.interim == d.interim
    ensures v.name.Some? ==> v.name == d.name && v.name.value != ""
    ensures v.title.Some? ==> v.title == d.title && v.title.value != ""
    ensures v.options.Some? ==> v.options == d.options && |v.options.value| > 0
  {
    DraftView(
      if IsSetText(d.name) then d.name else None,
      if IsSetText(d.title) then d.title else None,
      d.interim,
      if d.options.Some? && |d.options.value| > 0 then d.options else None,
      d.anonymous,
      IsReady(d))
  }
}
