/**
 * The `info` report (poll.py:444-483) as a structured value: while a poll is
 * open without interim results only the total and the option labels are
 * shown; otherwise every option's count and percentage, and its voters
 * unless the poll is anonymous.
 */
module Reports {
  import opened PollModel

  /** One option line of a full report. `voters` is `None` for an anonymous poll. */
  datatype Row = Row(index: int, name: string, count: nat, percent: real, voters: Option<seq<Nick>>)

  /** The option lines: only `(index, name)` while tallies are withheld. */
  datatype Tally = Withheld(labels: seq<(int, string)>) | Shown(rows: seq<Row>)

  datatype Report = Report(title: string, author: Nick, date: Date, total: nat, tally: Tally)

  /** The sum of the lengths of all vote lists. */
  function TotalVotes(options: seq<PollOption>): nat
  {
    if |options| == 0 then 0
    else TotalVotes(options[..|options| - 1]) + |options[|options| - 1].votes|
  }

  /** `100 * vnum / total`, and 0 when there are no votes at all (without the rounding to one decimal). */
  function Percent(count: nat, total: nat): real
  {
    if total == 0 then 0.0 else 100.0 * count as real / total as real
  }

  function RowOf(o: PollOption, total: nat, anonymous: bool): Row
  {
    Row(o.index, o.name, |o.votes|, Percent(|o.votes|, total), if anonymous then None else Some(o.votes))
  }

  function RowsOf(options: seq<PollOption>, total: nat, anonymous: bool): seq<Row>
  {
    if |options| == 0 then []
    else RowsOf(options[..|options| - 1], total, anonymous) + [RowOf(options[|options| - 1], total, anonymous)]
  }

  function LabelsOf(options: seq<PollOption>): seq<(int, string)>
  {
    if |options| == 0 then []
    else LabelsOf(options[..|options| - 1]) + [(options[|options| - 1].index, options[|options| - 1].name)]
  }

  /** What `info` reports about a poll it found. */
  function ReportOf(p: PollRecord): Report
  {
    var total := TotalVotes(p.options);
    Report(p.title, p.author, p.date, total,
      if p.open && !p.interim then Withheld(LabelsOf(p.options))
      else Shown(RowsOf(p.options, total, p.anonymous)))
  }

  /** The two loops of the `info` handler: the total first, then one line per option. */
  method BuildReport(p: PollRecord) returns (r: Report)
    ensures r == ReportOf(p)
  {
    var options := p.options;
    var total := 0;
    var i := 0;
    while i < |options|
      invariant 0 <= i <= |options|
      invariant total == TotalVotes(options[..i])
    {
      assert options[..i + 1][..i] == options[..i];
      total := total + |options[i].votes|;
      i := i + 1;
    }
    assert options[..|options|] == options;
    if p.open && !p.interim {
      var labels := [];
      i := 0;
      while i < |options|
        invariant 0 <= i <= |options|
        invariant labels == LabelsOf(options[..i])
      {
        assert options[..i + 1][..i] == options[..i];
        labels := labels + [(options[i].index, options[i].name)];
        i := i + 1;
      }
      r := Report(p.title, p.author, p.date, total, Withheld(labels));
    } else {
      var rows := [];
      i := 0;
      while i < |options|
        invariant 0 <= i <= |options|
        invariant rows == RowsOf(options[..i], total, p.anonymous)
      {
        assert options[..i + 1][..i] == options[..i];
        var vnum := |options[i].votes|;
        var perc := if total == 0 then 0.0 else 100.0 * vnum as real / total as real;
        var voters := if p.anonymous then None else Some(options[i].votes);
        rows := rows + [Row(options[i].index, options[i].name, vnum, perc, voters)];
        i := i + 1;
      }
      r := Report(p.title, p.author, p.date, total, Shown(rows));
    }
  }

  // ---------------------------------------------------------------------------
  // What the report says

  lemma {:induction false} LabelsOfAt(options: seq<PollOption>)
    ensures |LabelsOf(options)| == |options|
    ensures forall k :: 0 <= k < |options| ==> LabelsOf(options)[k] == (options[k].index, options[k].name)
  {
    if |options| > 0 {
      LabelsOfAt(options[..|options| - 1]);
    }
  }

  lemma {:induction false} RowsOfAt(options: seq<PollOption>, total: nat, anonymous: bool)
    ensures |RowsOf(options, total, anonymous)| == |options|
    ensures forall k :: 0 <= k < |options| ==> RowsOf(options, total, anonymous)[k] == RowOf(options[k], total, anonymous)
  {
    if |options| > 0 {
      RowsOfAt(options[..|options| - 1], total, anonymous);
    }
  }

  /** Every option's count is at most the total. */
  lemma {:induction false} CountWithinTotal(options: seq<PollOption>, k: nat)
    requires k < |options|
    ensures |options[k].votes| <= TotalVotes(options)
  {
    if k < |options| - 1 {
      CountWithinTotal(options[..|options| - 1], k);
    }
  }

  /**
   * The shape of the report: the withheld mode exactly while the poll is open
   * without interim results, showing only the labels; otherwise one line per
   * option with its count, a percentage between 0 and 100 (0 when nobody
   * voted), and the voter list exactly when the poll is not anonymous.
   */
  lemma ReportShape(p: PollRecord)
    ensures var r := ReportOf(p);
      && r.title == p.title && r.author == p.author && r.date == p.date
      && r.total == TotalVotes(p.options)
      && (r.tally.Withheld? <==> p.open && !p.interim)
      && (r.tally.Withheld? ==>
            |r.tally.labels| == |p.options|
            && forall k :: 0 <= k < |p.options| ==> r.tally.labels[k] == (p.options[k].index, p.options[k].name))
      && (r.tally.Shown? ==>
            |r.tally.rows| == |p.options|
            && forall k :: 0 <= k < |p.options| ==>
                 var row := r.tally.rows[k];
                 && row.index == p.options[k].index && row.name == p.options[k].name
                 && row.count == |p.options[k].votes|
                 && 0.0 <= row.percent <= 100.0
                 && (r.total == 0 ==> row.percent == 0.0)
                 && (row.voters.Some? <==> !p.anonymous)
                 && (row.voters.Some? ==> row.voters.value == p.options[k].votes))
  {
    var total := TotalVotes(p.options);
    LabelsOfAt(p.options);
    RowsOfAt(p.options, total, p.anonymous);
    forall k | 0 <= k < |p.options|
      ensures 0.0 <= Percent(|p.options[k].votes|, total) <= 100.0
    {
      CountWithinTotal(p.options, k);
      if total > 0 {
        PercentBounded(|p.options[k].votes| as real, total as real);
      }
    }
  }

  lemma PercentBounded(c: real, t: real)
    requires 0.0 <= c <= t && t > 0.0
    ensures 0.0 <= 100.0 * c / t <= 100.0
  {
    var q := 100.0 * c / t;
    assert q * t == 100.0 * c;
  }

  /** Percentages of one total add up like the counts they come from. */
  lemma SharedDenominator(a: nat, b: nat, t: nat)
    requires t > 0
    ensures Percent(a, t) + Percent(b, t) == Percent(a + b, t)
  {
    var x := 100.0 * a as real / t as real;
    var y := 100.0 * b as real / t as real;
    assert x * t as real == 100.0 * a as real;
    assert y * t as real == 100.0 * b as real;
    assert (x + y) * t as real == 100.0 * (a + b) as real;
  }

  function SumPercent(rows: seq<Row>): real
  {
    if |rows| == 0 then 0.0 else SumPercent(rows[..|rows| - 1]) + rows[|rows| - 1].percent
  }

  /** The percentages of the rows add up to the percentage of all their votes together. */
  lemma {:induction false} SumPercentOfRows(options: seq<PollOption>, total: nat, anonymous: bool)
    requires total > 0
    ensures SumPercent(RowsOf(options, total, anonymous)) == Percent(TotalVotes(options), total)
  {
    if |options| == 0 {
      assert Percent(0, total) == 0.0;
    } else {
      var init := options[..|options| - 1];
      var last := options[|options| - 1];
      var rows := RowsOf(options, total, anonymous);
      assert rows == RowsOf(init, total, anonymous) + [RowOf(last, total, anonymous)];
      assert rows[..|rows| - 1] == RowsOf(init, total, anonymous);
      assert SumPercent(rows) == SumPercent(RowsOf(init, total, anonymous)) + Percent(|last.votes|, total);
      SumPercentOfRows(init, total, anonymous);
      assert TotalVotes(options) == TotalVotes(init) + |last.votes|;
      SharedDenominator(TotalVotes(init), |last.votes|, total);
    }
  }

  /** When anybody voted, the percentages of a full report add up to 100. */
  lemma PercentagesSumTo100(p: PollRecord)
    requires TotalVotes(p.options) > 0
    requires !(p.open && !p.interim)
    ensures SumPercent(ReportOf(p).tally.rows) == 100.0
  {
    var total := TotalVotes(p.options);
    assert ReportOf(p).tally == Shown(RowsOf(p.options, total, p.anonymous));
    SumPercentOfRows(p.options, total, p.anonymous);
    WholeIsHundred(total);
  }

  lemma WholeIsHundred(t: nat)
    requires t > 0
    ensures Percent(t, t) == 100.0
  {
  }

  // ---------------------------------------------------------------------------
  // The total counts people

  ghost function SetOf(votes: seq<Nick>): set<Nick>
  {
    set u | u in votes
  }

  /** Every nick that holds a vote in some option. */
  ghost function Voters(options: seq<PollOption>): set<Nick>
  {
    if |options| == 0 then {}
    else Voters(options[..|options| - 1]) + SetOf(options[|options| - 1].votes)
  }

  lemma {:induction false} VotersHold(options: seq<PollOption>, u: Nick)
    requires u in Voters(options)
    ensures exists a :: 0 <= a < |options| && u in options[a].votes
  {
    var init := options[..|options| - 1];
    if u !in SetOf(options[|options| - 1].votes) {
      VotersHold(init, u);
      var a :| 0 <= a < |init| && u in init[a].votes;
      assert options[a] == init[a];
    }
  }

  lemma {:induction false} SetOfSize(votes: seq<Nick>)
    requires NoRepeats(votes)
    ensures |SetOf(votes)| == |votes|
  {
    if |votes| > 0 {
      var init := votes[..|votes| - 1];
      var x := votes[|votes| - 1];
      assert votes == init + [x];
      assert multiset(votes) == multiset(init) + multiset{x};
      assert NoRepeats(init) by {
        forall u ensures multiset(init)[u] <= 1 {
          assert multiset(init)[u] <= multiset(votes)[u];
        }
      }
      assert x !in init by {
        assert multiset(votes)[x] == multiset(init)[x] + 1;
      }
      SetOfSize(init);
      assert SetOf(votes) == SetOf(init) + {x};
    }
  }

  lemma VotedEarlier(options: seq<PollOption>, u: Nick)
    requires |options| > 0 && SingleActiveVote(options)
    requires u in Voters(options[..|options| - 1])
    ensures u !in SetOf(options[|options| - 1].votes)
  {
    var init := options[..|options| - 1];
    VotersHold(init, u);
    var a :| 0 <= a < |init| && u in init[a].votes;
    assert AtMostOneHolder(options, u);
    assert u in options[a].votes;
  }

  /**
   * On a well-formed poll the total is the number of distinct nicks that
   * voted: the single-active-vote rule makes the vote lists disjoint.
   */
  lemma {:induction false} TotalCountsVoters(options: seq<PollOption>)
    requires SingleActiveVote(options)
    requires forall k :: 0 <= k < |options| ==> NoRepeats(options[k].votes)
    ensures TotalVotes(options) == |Voters(options)|
  {
    if |options| > 0 {
      var n := |options| - 1;
      var init := options[..n];
      assert SingleActiveVote(init) by {
        forall u ensures AtMostOneHolder(init, u) {
          assert AtMostOneHolder(options, u);
        }
      }
      TotalCountsVoters(init);
      SetOfSize(options[n].votes);
      var last := SetOf(options[n].votes);
      assert Voters(init) * last == {} by {
        forall u | u in Voters(init) ensures u !in last {
          VotedEarlier(options, u);
        }
      }
    }
  }

  /** The total an `info` report shows for a well-formed poll is the number of voters. */
  lemma ReportTotalCountsVoters(p: PollRecord)
    requires WellFormed(p)
    ensures ReportOf(p).total == |Voters(p.options)|
  {
    TotalCountsVoters(p.options);
  }

  /** The worked example of a poll with 3 and 1 votes: 75% and 25%. */
  lemma PercentExample()
    ensures var p := PollRecord("A", "p1", "Colour", 0, false, false, false,
                                [PollOption(0, "red", ["B", "C", "D"]), PollOption(1, "blue", ["E"])]);
      var r := ReportOf(p);
      && r.total == 4
      && r.tally == Shown([Row(0, "red", 3, 75.0, Some(["B", "C", "D"])), Row(1, "blue", 1, 25.0, Some(["E"]))])
  {
    var opts := [PollOption(0, "red", ["B", "C", "D"]), PollOption(1, "blue", ["E"])];
    assert opts[..1][..0] == [];
    assert opts[..1] == [opts[0]];
    assert TotalVotes(opts[..1]) == 3;
    assert TotalVotes(opts) == 4;
    assert Percent(3, 4) == 75.0;
    assert Percent(1, 4) == 25.0;
    assert RowsOf(opts[..1], 4, false) == [RowOf(opts[0], 4, false)];
    assert RowsOf(opts, 4, false) == [RowOf(opts[0], 4, false), RowOf(opts[1], 4, false)];
  }
}
