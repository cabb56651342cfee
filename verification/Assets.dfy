/** get_download_url: keep the assets whose name the configured pattern
    matches, in their original order, insist that exactly one is left, and
    answer its browser_download_url. */
module Assets {
  import opened Results

  datatype Asset = Asset(name: string, browserDownloadUrl: string)

  /** `re.match(pattern, name)` succeeding. The regular-expression engine is
      not modelled; every result below holds for any matcher. */
  type Matcher = (string, string) -> bool

  /** The AssertionError raised when `matched` assets survive the filter
      and `matched` is not one. */
  datatype SelectError = NotExactlyOne(matched: nat)

  /** `list(filter(lambda i: re.match(pat, i["name"]), assets))`. */
  function Matching(assets: seq<Asset>, pat: string, matches: Matcher): (r: seq<Asset>)
    ensures |r| <= |assets|
    ensures forall a :: a in r <==> a in assets && matches(pat, a.name)
  {
    if assets == [] then []
    else
      var rest := Matching(assets[1..], pat, matches);
      assert forall a :: a in assets <==> a == assets[0] || a in assets[1..];
      if matches(pat, assets[0].name) then [assets[0]] + rest else rest
  }

  /** `get_download_url(assets, pat)`. */
  function GetDownloadUrl(assets: seq<Asset>, pat: string, matches: Matcher): (r: Result<string, SelectError>)
    ensures r.Ok? ==> exists i :: 0 <= i < |assets| && matches(pat, assets[i].name)
                                   && r.value == assets[i].browserDownloadUrl
    ensures r.Err? ==> r.error.matched != 1
  {
    var found := Matching(assets, pat, matches);
    if |found| == 1 then
      assert found[0] in found;
      Ok(found[0].browserDownloadUrl)
    else
      Err(NotExactlyOne(|found|))
  }

  /** The filter keeps the order of the list: filtering a concatenation
      concatenates the filtered parts. */
  lemma {:induction false} MatchingAppend(s: seq<Asset>, t: seq<Asset>, pat: string, matches: Matcher)
    ensures Matching(s + t, pat, matches) == Matching(s, pat, matches) + Matching(t, pat, matches)
  {
    if s != [] {
      var h := s[0];
      assert (s + t)[0] == h && (s + t)[1..] == s[1..] + t;
      MatchingAppend(s[1..], t, pat, matches);
      if matches(pat, h.name) {
        assert Matching(s + t, pat, matches) == [h] + Matching(s[1..] + t, pat, matches);
        assert Matching(s, pat, matches) == [h] + Matching(s[1..], pat, matches);
      }
    } else {
      assert s + t == t;
    }
  }

  /** How often each asset occurs after filtering depends only on how often
      it occurred before. */
  lemma {:induction false} MatchingMultiset(s: seq<Asset>, pat: string, matches: Matcher, a: Asset)
    ensures multiset(Matching(s, pat, matches))[a] == if matches(pat, a.name) then multiset(s)[a] else 0
  {
    if s != [] {
      MatchingMultiset(s[1..], pat, matches, a);
      assert s == [s[0]] + s[1..];
      assert multiset(s) == multiset{s[0]} + multiset(s[1..]);
    }
  }

  lemma NothingMatching(s: seq<Asset>, pat: string, matches: Matcher)
    requires forall a :: a in s ==> !matches(pat, a.name)
    ensures Matching(s, pat, matches) == []
  {
  }

  /** With one matching asset at index i, its URL is the answer. */
  lemma UniqueMatchSelected(assets: seq<Asset>, pat: string, matches: Matcher, i: nat)
    requires i < |assets| && matches(pat, assets[i].name)
    requires forall j :: 0 <= j < |assets| && j != i ==> !matches(pat, assets[j].name)
    ensures GetDownloadUrl(assets, pat, matches) == Ok(assets[i].browserDownloadUrl)
  {
    var before, after := assets[..i], assets[i + 1..];
    assert assets == before + [assets[i]] + after;
    assert forall a :: a in before ==> !matches(pat, a.name);
    assert forall a :: a in after ==> !matches(pat, a.name);
    NothingMatching(before, pat, matches);
    NothingMatching(after, pat, matches);
    assert Matching([assets[i]], pat, matches) == [assets[i]];
    MatchingAppend(before, [assets[i]], pat, matches);
    MatchingAppend(before + [assets[i]], after, pat, matches);
  }

  /** No matching asset: the assertion fails with nothing selected. */
  lemma NoMatchFails(assets: seq<Asset>, pat: string, matches: Matcher)
    requires forall j :: 0 <= j < |assets| ==> !matches(pat, assets[j].name)
    ensures GetDownloadUrl(assets, pat, matches) == Err(NotExactlyOne(0))
  {
    NothingMatching(assets, pat, matches);
  }

  /** Two matching assets: the assertion fails, however many more match. */
  lemma AmbiguousMatchFails(assets: seq<Asset>, pat: string, matches: Matcher, i: nat, j: nat)
    requires i < j < |assets|
    requires matches(pat, assets[i].name) && matches(pat, assets[j].name)
    ensures GetDownloadUrl(assets, pat, matches).Err?
    ensures GetDownloadUrl(assets, pat, matches).error.matched >= 2
  {
    var upto, after := assets[..i + 1], assets[i + 1..];
    assert assets == upto + after;
    MatchingAppend(upto, after, pat, matches);
    assert assets[i] in upto && assets[j] in after;
  }

  /** Since exactly one match is required, reordering the asset list never
      changes the outcome. */
  lemma {:induction false} OrderIrrelevant(assets: seq<Asset>, other: seq<Asset>, pat: string, matches: Matcher)
    requires multiset(assets) == multiset(other)
    ensures GetDownloadUrl(assets, pat, matches) == GetDownloadUrl(other, pat, matches)
  {
    var found, found' := Matching(assets, pat, matches), Matching(other, pat, matches);
    forall a
      ensures multiset(found)[a] == multiset(found')[a]
    {
      MatchingMultiset(assets, pat, matches, a);
      MatchingMultiset(other, pat, matches, a);
    }
    assert multiset(found) == multiset(found');
    assert |found| == |multiset(found)| == |multiset(found')| == |found'|;
    if |found| == 1 {
      assert multiset(found) == multiset{found[0]};
      assert found'[0] in multiset(found');
    }
  }
}
