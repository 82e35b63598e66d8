/** The admin banner list and its search box: a case-insensitive
    substring filter on title and subtitle. */
module BannerList {

  import opened Wrappers
  import opened Catalog
  import opened Strings
  import Arrays

  /** The search callback for the lower-cased term `term`: the title
      contains it, or the subtitle is non-empty and contains it. */
  predicate BannerMatches(b: Banner, term: string) {
    Contains(ToLower(b.title), term) ||
    (Truthy(b.subtitle) && Contains(ToLower(b.subtitle.value), term))
  }

  function MatchTest(term: string): Banner -> bool {
    b => BannerMatches(b, term)
  }

  /** `banners.filter(...)` for the search text `search`. */
  function SearchBanners(banners: seq<Banner>, search: string): seq<Banner> {
    Arrays.Filter(banners, MatchTest(ToLower(search)))
  }

  /** The result is the matching banners and only those, in their order. */
  lemma SearchMeaning(banners: seq<Banner>, search: string)
    ensures forall b :: b in SearchBanners(banners, search) <==> b in banners && BannerMatches(b, ToLower(search))
    ensures Arrays.IsSubsequence(SearchBanners(banners, search), banners)
  {
    var r := SearchBanners(banners, search);
    forall b | b in banners && BannerMatches(b, ToLower(search)) ensures b in r {
      var k :| 0 <= k < |banners| && banners[k] == b;
      assert MatchTest(ToLower(search))(banners[k]);
    }
    Arrays.FilterIsSubsequence(banners, MatchTest(ToLower(search)));
  }

  /** An empty search keeps every banner. */
  lemma EmptySearchKeepsAll(banners: seq<Banner>)
    ensures SearchBanners(banners, "") == banners
  {
    forall k | 0 <= k < |banners| ensures MatchTest(ToLower(""))(banners[k]) {
      ContainsEmpty(ToLower(banners[k].title));
    }
    Arrays.FilterKeepsAll(banners, MatchTest(ToLower("")));
  }

  /** Typing more narrows the list: when `t` occurs in `t2`, what `t2`
      finds is among what `t` finds, in the same order. */
  lemma LongerSearchNarrows(banners: seq<Banner>, t: string, t2: string)
    requires Contains(t2, t)
    ensures Arrays.IsSubsequence(SearchBanners(banners, t2), SearchBanners(banners, t))
  {
    ContainsToLower(t2, t);
    forall k | 0 <= k < |banners| && MatchTest(ToLower(t2))(banners[k])
      ensures MatchTest(ToLower(t))(banners[k])
    {
      var b := banners[k];
      if Contains(ToLower(b.title), ToLower(t2)) {
        ContainsTransitive(ToLower(b.title), ToLower(t2), ToLower(t));
      } else {
        ContainsTransitive(ToLower(b.subtitle.value), ToLower(t2), ToLower(t));
      }
    }
    Arrays.FilterMonotone(banners, MatchTest(ToLower(t2)), MatchTest(ToLower(t)));
  }

  /** What `getAllBanners` produced. */
  datatype BannersFetch = Responded(success: bool, data: Option<seq<Banner>>) | Threw

  /** The list page's state. After every handler and the search effect it
      triggers, `filtered` is the search over `banners`. */
  class BannerListPage {
    var banners: seq<Banner>
    var filtered: seq<Banner>
    var search: string

    predicate Valid()
      reads this
    {
      filtered == SearchBanners(banners, search)
    }

    constructor()
      ensures banners == [] && filtered == [] && search == "" && Valid()
    {
      banners := [];
      filtered := [];
      search := "";
    }

    /** The loading effect: a successful answer with data replaces both
        lists, after which the search effect re-runs on the new banners. */
    method Load(fetch: BannersFetch)
      requires Valid()
      modifies this
      ensures Valid() && search == old(search)
      ensures fetch.Responded? && fetch.success && fetch.data.Some? ==> banners == fetch.data.value
      ensures !(fetch.Responded? && fetch.success && fetch.data.Some?) ==>
        banners == old(banners) && filtered == old(filtered)
      ensures search == "" ==> filtered == banners
    {
      if fetch.Responded? && fetch.success && fetch.data.Some? {
        banners := fetch.data.value;
        filtered := fetch.data.value;
        SearchEffect();
      }
      if search == "" {
        EmptySearchKeepsAll(banners);
      }
    }

    /** Typing in the search box, and the effect it triggers. */
    method SetSearch(text: string)
      modifies this
      ensures search == text && banners == old(banners) && Valid()
    {
      search := text;
      SearchEffect();
    }

    /** The effect on `[search, banners]`. */
    method SearchEffect()
      modifies this
      ensures banners == old(banners) && search == old(search) && Valid()
    {
      var term := ToLower(search);
      filtered := Arrays.Filter(banners, MatchTest(term));
    }
  }
}
