/** Filtering validated user records by a minimum score and an optional
    country, and projecting them to CSV rows. */
module Filtering {
  import opened Wrappers
  import opened PyText
  import opened IoUtils

  /** `country.strip().upper() if country else None`: no country, and the
      empty string, give no filter value. */
  function CountryNorm(country: Option<string>): (norm: Option<string>)
    ensures norm.None? <==> country.None? || country.value == ""
    ensures norm.Some? ==> norm.value == TrimUpper(country.value)
    ensures norm.Some? ==> (norm.value == "" <==> AllSpace(country.value))
  {
    if country.Some? && country.value != "" then
      StripSpec(country.value);
      Some(TrimUpper(country.value))
    else None
  }

  /** Whether `filter_records` keeps `r`: its score is not below `minScore`,
      and when the normalised country is a non-empty text the record's
      country equals it. */
  predicate Keep(r: UserRecord, minScore: real, norm: Option<string>) {
    && !(r.score < minScore)
    && !(norm.Some? && norm.value != "" && r.country != norm.value)
  }

  /** The records `Keep` accepts, in input order. */
  function Kept(records: seq<UserRecord>, minScore: real, norm: Option<string>): seq<UserRecord> {
    if records == [] then []
    else
      var last := records[|records| - 1];
      Kept(records[..|records| - 1], minScore, norm) + (if Keep(last, minScore, norm) then [last] else [])
  }

  /** The `ValueError` of `filter_records` for a threshold outside [0, 1]. */
  datatype FilterError = MinScoreOutOfRange

  /** `filter_records`: the threshold is checked first, before any record is
      looked at; then the loop keeps the records `Keep` accepts. */
  method FilterRecords(records: seq<UserRecord>, minScore: real, country: Option<string>)
    returns (r: Result<seq<UserRecord>, FilterError>)
    ensures r.Failure? <==> !(0.0 <= minScore <= 1.0)
    ensures r.Success? ==> r.value == Kept(records, minScore, CountryNorm(country))
  {
    if !(0.0 <= minScore <= 1.0) {
      return Failure(MinScoreOutOfRange);
    }
    var countryNorm := if country.Some? && country.value != "" then Some(TrimUpper(country.value)) else None;
    var out: seq<UserRecord> := [];
    for i := 0 to |records|
      invariant out == Kept(records[..i], minScore, countryNorm)
    {
      assert records[..i + 1][..i] == records[..i];
      var rec := records[i];
      if rec.score < minScore {
        continue;
      }
      if countryNorm.Some? && countryNorm.value != "" && rec.country != countryNorm.value {
        continue;
      }
      out := out + [rec];
    }
    assert records[..|records|] == records;
    return Success(out);
  }

  /** `a` is `b` with some elements left out, the rest in their order: the
      last element of `a` is matched with the last of `b`, or `b`'s last
      element is one of those left out. */
  predicate IsSubsequence<T(==)>(a: seq<T>, b: seq<T>) {
    || a == []
    || (&& b != []
        && ((a != [] && a[|a| - 1] == b[|b| - 1] && IsSubsequence(a[..|a| - 1], b[..|b| - 1]))
            || IsSubsequence(a, b[..|b| - 1])))
  }

  /** The output of `filter_records` is an order-preserving subsequence of its input. */
  lemma {:induction false} KeptIsSubsequence(records: seq<UserRecord>, minScore: real, norm: Option<string>)
    ensures IsSubsequence(Kept(records, minScore, norm), records)
  {
    if records != [] {
      var init := records[..|records| - 1];
      var last := records[|records| - 1];
      var k := Kept(init, minScore, norm);
      KeptIsSubsequence(init, minScore, norm);
      if Keep(last, minScore, norm) {
        assert (k + [last])[..|k|] == k;
      } else {
        assert Kept(records, minScore, norm) == k;
      }
    }
  }

  /** Soundness and completeness at once: each record occurs in the output as
      often as in the input when `Keep` accepts it, and not at all otherwise. */
  lemma {:induction false} KeptCounts(records: seq<UserRecord>, minScore: real, norm: Option<string>, x: UserRecord)
    ensures multiset(Kept(records, minScore, norm))[x] ==
              if Keep(x, minScore, norm) then multiset(records)[x] else 0
  {
    if records != [] {
      var init := records[..|records| - 1];
      KeptCounts(init, minScore, norm, x);
      assert records == init + [records[|records| - 1]];
    }
  }

  /** Every kept record meets the threshold, and the given country when one
      that is not blank was given. */
  lemma KeptIsSound(records: seq<UserRecord>, minScore: real, country: Option<string>, x: UserRecord)
    requires x in Kept(records, minScore, CountryNorm(country))
    ensures x.score >= minScore
    ensures country.Some? && !AllSpace(country.value) ==> x.country == TrimUpper(country.value)
  {
    KeptCounts(records, minScore, CountryNorm(country), x);
    assert multiset(Kept(records, minScore, CountryNorm(country)))[x] > 0;
    if country.Some? && !AllSpace(country.value) {
      StripSpec(country.value);
    }
  }

  /** Every input record that meets the threshold, and the country when one
      that is not blank was given, is kept. */
  lemma KeptIsComplete(records: seq<UserRecord>, minScore: real, country: Option<string>, x: UserRecord)
    requires x in records && x.score >= minScore
    requires country.Some? && !AllSpace(country.value) ==> x.country == TrimUpper(country.value)
    ensures x in Kept(records, minScore, CountryNorm(country))
  {
    KeptCounts(records, minScore, CountryNorm(country), x);
    assert multiset(records)[x] > 0;
    if country.Some? {
      StripSpec(country.value);
    }
  }

  /** No country, or one that is blank after trimming, filters on the score alone. */
  lemma BlankCountryIsNoFilter(records: seq<UserRecord>, minScore: real, country: Option<string>)
    requires country.None? || AllSpace(country.value)
    ensures Kept(records, minScore, CountryNorm(country)) == Kept(records, minScore, None)
  {
    if country.Some? {
      StripSpec(country.value);
    }
    KeptSameFilter(records, minScore, CountryNorm(country), None);
  }

  lemma {:induction false} KeptSameFilter(records: seq<UserRecord>, minScore: real, n1: Option<string>, n2: Option<string>)
    requires forall r :: Keep(r, minScore, n1) == Keep(r, minScore, n2)
    ensures Kept(records, minScore, n1) == Kept(records, minScore, n2)
  {
    if records != [] {
      KeptSameFilter(records[..|records| - 1], minScore, n1, n2);
    }
  }

  // ---------------------------------------------------------------------------
  // CSV rows
  // ---------------------------------------------------------------------------

  /** A value of a CSV row dict: a string or a float. */
  datatype CsvValue = Text(s: string) | Number(x: real)

  /** Reads a record back from a row with the columns `id`, `country` and `score`. */
  function RecordOf(row: map<string, CsvValue>): Option<UserRecord> {
    if "id" in row && "country" in row && "score" in row &&
       row["id"].Text? && row["country"].Text? && row["score"].Number?
    then Some(UserRecord(row["id"].s, row["country"].s, row["score"].x))
    else None
  }

  /** `to_csv_rows`: one row per record, in order, each with exactly the keys
      `id`, `country` and `score`, from which the record reads back whole. */
  method ToCsvRows(records: seq<UserRecord>) returns (rows: seq<map<string, CsvValue>>)
    ensures |rows| == |records|
    ensures forall i :: 0 <= i < |rows| ==> rows[i].Keys == {"id", "country", "score"}
    ensures forall i :: 0 <= i < |rows| ==> rows[i]["id"] == Text(records[i].userId)
    ensures forall i :: 0 <= i < |rows| ==> RecordOf(rows[i]) == Some(records[i])
  {
    rows := [];
    for i := 0 to |records|
      invariant |rows| == i
      invariant forall j :: 0 <= j < i ==> rows[j].Keys == {"id", "country", "score"}
      invariant forall j :: 0 <= j < i ==> rows[j]["id"] == Text(records[j].userId)
      invariant forall j :: 0 <= j < i ==> RecordOf(rows[j]) == Some(records[j])
    {
      var r := records[i];
      var d := map["user_id" := Text(r.userId), "country" := Text(r.country), "score" := Number(r.score)];
      rows := rows + [map["id" := d["user_id"], "country" := d["country"], "score" := d["score"]]];
    }
  }
}
