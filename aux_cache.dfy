/**
 * The secondary holiday index (the cached Nager.Date public-holiday lists) and
 * the merge step of the daily refresh job `update_auxiliary_cache`.
 *
 * The index is what `load_cache` reads from the JSON cache file: keys are the
 * years written as decimal text (JSON object keys), values map an ISO date text
 * to that holiday's local name. Reading and writing the file and the network
 * fetch are outside the model: the refresh takes the index that was loaded and
 * the fetch results, and returns the index that is then saved.
 */
module AuxCache {
  import opened Dates

  type YearIndex = map<string, string>
  type Cache = map<string, YearIndex>

  /** `str(year)`, the key under which a year's holidays are cached. */
  function YearKey(year: nat): string {
    Decimal(year)
  }

  /**
   * For a date of a four-digit year, the key of its year is the first four
   * characters of its ISO text, the text the year's holiday list is keyed by.
   */
  lemma YearKeyPrefixesIsoFormat(n: Day)
    requires 1000 <= YearOf(n)
    ensures YearKey(YearOf(n)) == IsoFormat(n)[..4]
  {
    var d := FromOrdinal(n);
    DecimalOfFourDigits(d.year);
    assert IsoFormat(n)[..4] == [Digit(d.year / 10 / 10 / 10), Digit(d.year / 10 / 10 % 10), Digit(d.year / 10 % 10), Digit(d.year % 10)];
  }

  /** The years the refresh job fetches: the current one and the next. */
  function RefreshYears(currentYear: nat): (years: seq<nat>)
    ensures |years| == 2 && years[0] == currentYear && years[1] == currentYear + 1
  {
    [currentYear, currentYear + 1]
  }

  /** Whether key `k` is that of one of `years` whose fetch came back non-empty. */
  ghost predicate Refreshed(years: seq<nat>, fetch: nat -> YearIndex, k: string) {
    exists j :: 0 <= j < |years| && fetch(years[j]) != map[] && k == YearKey(years[j])
  }

  lemma RefreshedOneMore(years: seq<nat>, i: nat, fetch: nat -> YearIndex)
    requires i < |years|
    ensures forall k :: Refreshed(years[..i + 1], fetch, k) <==>
              Refreshed(years[..i], fetch, k) || (fetch(years[i]) != map[] && k == YearKey(years[i]))
  {
    forall k ensures Refreshed(years[..i + 1], fetch, k) <==>
                     Refreshed(years[..i], fetch, k) || (fetch(years[i]) != map[] && k == YearKey(years[i])) {
      if Refreshed(years[..i + 1], fetch, k) {
        var j :| 0 <= j < i + 1 && fetch(years[..i + 1][j]) != map[] && k == YearKey(years[..i + 1][j]);
        if j < i { assert years[..i][j] == years[j]; }
      }
      if Refreshed(years[..i], fetch, k) {
        var j :| 0 <= j < i && fetch(years[..i][j]) != map[] && k == YearKey(years[..i][j]);
        assert years[..i + 1][j] == years[j];
      }
      if fetch(years[i]) != map[] && k == YearKey(years[i]) {
        assert years[..i + 1][i] == years[i];
      }
    }
  }

  /**
   * What the merge loop keeps after handling `years[..i]`: each of them with a
   * non-empty fetch holds its fetched list, the keys are those loaded plus those
   * written, and a loaded key not written keeps its value.
   */
  ghost predicate MergedUpTo(loaded: Cache, years: seq<nat>, fetch: nat -> YearIndex, i: nat, cache: Cache)
    requires i <= |years|
  {
    && (forall j :: 0 <= j < i && fetch(years[j]) != map[] ==>
          YearKey(years[j]) in cache && cache[YearKey(years[j])] == fetch(years[j]))
    && (forall k :: k in cache <==> k in loaded || Refreshed(years[..i], fetch, k))
    && (forall k :: k in loaded && !Refreshed(years[..i], fetch, k) ==> cache[k] == loaded[k])
  }

  /** One round of the merge loop keeps the keys and the values not written. */
  lemma MergeStepKeys(loaded: Cache, years: seq<nat>, fetch: nat -> YearIndex, i: nat, cache: Cache, next: Cache)
    requires i < |years|
    requires forall k :: k in cache <==> k in loaded || Refreshed(years[..i], fetch, k)
    requires forall k :: k in loaded && !Refreshed(years[..i], fetch, k) ==> cache[k] == loaded[k]
    requires next == if fetch(years[i]) != map[] then cache[YearKey(years[i]) := fetch(years[i])] else cache
    ensures forall k :: k in next <==> k in loaded || Refreshed(years[..i + 1], fetch, k)
    ensures forall k :: k in loaded && !Refreshed(years[..i + 1], fetch, k) ==> next[k] == loaded[k]
  {
    var y := years[i];
    RefreshedOneMore(years, i, fetch);
    forall k | k in loaded && !Refreshed(years[..i + 1], fetch, k)
      ensures next[k] == loaded[k]
    {
      assert !Refreshed(years[..i], fetch, k) && cache[k] == loaded[k];
      assert fetch(y) != map[] ==> k != YearKey(y);
    }
  }

  /** One round of the merge loop, for a year not handled before, keeps `MergedUpTo`. */
  lemma MergeStep(loaded: Cache, years: seq<nat>, fetch: nat -> YearIndex, i: nat, cache: Cache)
    requires i < |years|
    requires forall j :: 0 <= j < i ==> YearKey(years[j]) != YearKey(years[i])
    requires MergedUpTo(loaded, years, fetch, i, cache)
    ensures MergedUpTo(loaded, years, fetch, i + 1,
              if fetch(years[i]) != map[] then cache[YearKey(years[i]) := fetch(years[i])] else cache)
  {
    var y := years[i];
    var next := if fetch(y) != map[] then cache[YearKey(y) := fetch(y)] else cache;
    MergeStepKeys(loaded, years, fetch, i, cache, next);
    forall j | 0 <= j < i + 1 && fetch(years[j]) != map[]
      ensures YearKey(years[j]) in next && next[YearKey(years[j])] == fetch(years[j])
    {
      if j < i {
        assert next[YearKey(years[j])] == cache[YearKey(years[j])];
      }
    }
  }

  /**
   * The merge loop of `update_auxiliary_cache`: for the current year and the
   * next, a non-empty fetch result replaces that year's entry; an empty one
   * (a failed or empty fetch) leaves the entry as it was, and so are all other
   * entries.
   */
  method MergeFetched(loaded: Cache, today: Day, fetch: nat -> YearIndex) returns (cache: Cache)
    ensures forall y: nat :: (y == YearOf(today) || y == YearOf(today) + 1) && fetch(y) != map[] ==>
              YearKey(y) in cache && cache[YearKey(y)] == fetch(y)
    ensures forall k :: k in cache <==> k in loaded || Refreshed(RefreshYears(YearOf(today)), fetch, k)
    ensures forall k :: k in loaded && !Refreshed(RefreshYears(YearOf(today)), fetch, k) ==> cache[k] == loaded[k]
  {
    var years := RefreshYears(YearOf(today));
    if YearKey(years[0]) == YearKey(years[1]) {
      DecimalInjective(years[0], years[1]);
    }
    cache := loaded;
    for i := 0 to |years|
      invariant MergedUpTo(loaded, years, fetch, i, cache)
    {
      var holidays := fetch(years[i]);
      MergeStep(loaded, years, fetch, i, cache);
      if holidays != map[] {
        cache := cache[YearKey(years[i]) := holidays];
      }
    }
    assert years[..|years|] == years;
  }
}
