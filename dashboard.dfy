/**
 * The admin dashboard: the number of images per category and in total.
 *
 * The query is not modelled: its answer (the category of every row, or None when it fails)
 * is a parameter.
 */
module Dashboard {
  import opened Wrappers

  datatype Stats = Stats(track: nat, soccer: nat, football: nat, basketball: nat, bestOf: nat, total: nat)

  /** The categories the database allows. */
  const KnownCategories: set<string> := {"track", "soccer", "football", "basketball", "best-of"}

  /** The set of values a sequence holds. */
  function Present(rows: seq<string>): set<string> {
    set i | 0 <= i < |rows| :: rows[i]
  }

  /** The `reduce` over the rows: `acc[category] = (acc[category] || 0) + 1`. The result has a
      key for exactly the categories that occur, holding how many rows have it. */
  method CountCategories(rows: seq<string>) returns (counts: map<string, nat>)
    ensures counts.Keys == Present(rows)
    ensures forall c :: c in counts ==> counts[c] == multiset(rows)[c]
  {
    counts := map[];
    for k := 0 to |rows|
      invariant counts.Keys == Present(rows[..k])
      invariant forall c :: c in counts ==> counts[c] == multiset(rows[..k])[c]
    {
      var c := rows[k];
      assert rows[..k + 1] == rows[..k] + [c];
      counts := counts[c := (if c in counts then counts[c] else 0) + 1];
    }
    assert rows[..|rows|] == rows;
  }

  /** `counts[key] || 0` */
  function CountOf(counts: map<string, nat>, key: string): nat {
    if key in counts then counts[key] else 0
  }

  /** The Stats record built from the counts and the number of rows. */
  function MakeStats(counts: map<string, nat>, rowCount: nat): Stats {
    Stats(CountOf(counts, "track"), CountOf(counts, "soccer"), CountOf(counts, "football"),
          CountOf(counts, "basketball"), CountOf(counts, "best-of"), rowCount)
  }

  /** The counts of the five categories. */
  function KnownSum(s: Stats): nat {
    s.track + s.soccer + s.football + s.basketball + s.bestOf
  }

  /** Every field of the stats is the number of rows of its category ('best-of' for bestOf),
      0 for a category with no row, and the total is the number of rows. */
  lemma MakeStatsCounts(rows: seq<string>, counts: map<string, nat>)
    requires counts.Keys == Present(rows)
    requires forall c :: c in counts ==> counts[c] == multiset(rows)[c]
    ensures var s := MakeStats(counts, |rows|);
            && s.track == multiset(rows)["track"] && s.soccer == multiset(rows)["soccer"]
            && s.football == multiset(rows)["football"] && s.basketball == multiset(rows)["basketball"]
            && s.bestOf == multiset(rows)["best-of"] && s.total == |rows|
  {
    forall c | c !in counts
      ensures multiset(rows)[c] == 0
    {
      assert c !in Present(rows);
    }
  }

  /** When every row has one of the five categories, the five counts add up to the total. */
  lemma {:induction false} KnownCountsSum(rows: seq<string>)
    requires forall i :: 0 <= i < |rows| ==> rows[i] in KnownCategories
    ensures multiset(rows)["track"] + multiset(rows)["soccer"] + multiset(rows)["football"]
            + multiset(rows)["basketball"] + multiset(rows)["best-of"] == |rows|
    decreases |rows|
  {
    if rows != [] {
      var init := rows[..|rows| - 1];
      assert rows == init + [rows[|rows| - 1]];
      KnownCountsSum(init);
    }
  }

  /** With only known categories in the table, the five cards add up to the total card. */
  lemma StatsAddUp(rows: seq<string>, counts: map<string, nat>)
    requires counts.Keys == Present(rows)
    requires forall c :: c in counts ==> counts[c] == multiset(rows)[c]
    requires forall i :: 0 <= i < |rows| ==> rows[i] in KnownCategories
    ensures KnownSum(MakeStats(counts, |rows|)) == MakeStats(counts, |rows|).total
  {
    MakeStatsCounts(rows, counts);
    KnownCountsSum(rows);
  }

  /** The dashboard's state: the stats it shows and whether it is still loading. */
  class DashboardPage {
    var stats: Stats
    var loading: bool

    constructor ()
      ensures stats == Stats(0, 0, 0, 0, 0, 0) && loading
    {
      stats := Stats(0, 0, 0, 0, 0, 0);
      loading := true;
    }

    /** loadStats: with the query's rows, every count and the total are replaced; when the query
        fails the stats stay as they were. */
    method LoadStats(fetched: Option<seq<string>>)
      modifies this
      ensures fetched.None? ==> stats == old(stats)
      ensures fetched.Some? ==> var rows := fetched.value;
                && stats.track == multiset(rows)["track"] && stats.soccer == multiset(rows)["soccer"]
                && stats.football == multiset(rows)["football"] && stats.basketball == multiset(rows)["basketball"]
                && stats.bestOf == multiset(rows)["best-of"] && stats.total == |rows|
      ensures !loading
    {
      if fetched.Some? {
        var counts := CountCategories(fetched.value);
        MakeStatsCounts(fetched.value, counts);
        stats := MakeStats(counts, |fetched.value|);
      }
      loading := false;
    }
  }
}
