/** The news normaliser of frontend/src/services/newsService.ts: the first twelve
    top-story ids, one item per id, items without a title dropped, the rest mapped
    to articles in id order. */
module News {
  import opened Wrappers
  import opened Upstream
  import Js
  import Seqs

  /** A Hacker News item as decoded from `item/<id>.json`. */
  datatype Story = Story(
    id: int,
    title: Option<string>,
    score: Option<int>,
    author: Option<string>,  // the item's `by` field
    descendants: Option<int>,
    url: Option<string>,
    time: int)

  /** `Article`; `publishedAtMillis` is the instant handed to `new Date(...)`. */
  datatype Article = Article(title: string, description: string, url: string, publishedAtMillis: int, sourceName: string)

  /** How many top-story ids are fetched. */
  const StoryLimit: nat := 12

  const SourceName: string := "Hacker News"

  const ItemUrlPrefix: string := "https://news.ycombinator.com/item?id="

  /** `story && story.title`: a non-null item with a non-empty title. */
  predicate HasTitle(story: Option<Story>)
    ensures story.None? ==> !HasTitle(story)
    ensures story.Some? && (story.value.title.None? || story.value.title.value == "") ==> !HasTitle(story)
  {
    story.Some? && Js.Truthy(story.value.title)
  }

  /** `n || 0` for an optional JSON number. */
  function CountOr0(n: Option<int>): (r: int)
    ensures n.Some? ==> r == n.value
    ensures n.None? ==> r == 0
  {
    if n.Some? && n.value != 0 then n.value else 0
  }

  const PointsBy: string := " points by "
  const Separator: string := " | "
  const Comments: string := " comments"

  /** `${score || 0} points by ${by || 'unknown'} | ${descendants || 0} comments`. */
  function Description(story: Story): (d: string)
    ensures |d| >= |Comments| && d[|d| - |Comments|..] == Comments
    ensures |d| == |Js.IntToString(CountOr0(story.score))| + |PointsBy| + |Js.Or(story.author, "unknown")|
                   + |Separator| + |Js.IntToString(CountOr0(story.descendants))| + |Comments|
  {
    var head := Js.IntToString(CountOr0(story.score));
    var body := PointsBy + Js.Or(story.author, "unknown") + Separator + Js.IntToString(CountOr0(story.descendants));
    Seqs.EndsWith(head, body, Comments);
    head + (body + Comments)
  }

  /** Read with `parseInt`, the description gives back the score. */
  lemma DescriptionScore(story: Story)
    ensures Js.ParseInt(Description(story)) == Js.Num(CountOr0(story.score))
  {
    var body := PointsBy + Js.Or(story.author, "unknown") + Separator + Js.IntToString(CountOr0(story.descendants));
    assert (body + Comments)[0] == PointsBy[0] == ' ';
    Js.ParseIntRoundTrip(CountOr0(story.score), body + Comments);
  }

  /** After the score and " points by " comes the author, or "unknown" when the item has none. */
  lemma DescriptionAuthor(story: Story)
    ensures var d, start := Description(story), |Js.IntToString(CountOr0(story.score))|;
            && d[start..start + |PointsBy|] == PointsBy
            && (Js.Truthy(story.author) ==> d[start + |PointsBy|..start + |PointsBy| + |story.author.value|] == story.author.value)
            && (!Js.Truthy(story.author) ==> d[start + |PointsBy|..start + |PointsBy| + 7] == "unknown")
  {
    Seqs.LeadingParts(Js.IntToString(CountOr0(story.score)), PointsBy, Js.Or(story.author, "unknown"),
                      Separator, Js.IntToString(CountOr0(story.descendants)), Comments);
  }

  /** The comment count stands between the last " | " and " comments", and that " | " starts
      right where the author (from `DescriptionAuthor`) ends: nothing else sits in between. */
  lemma DescriptionComments(story: Story)
    ensures var d, c := Description(story), Js.IntToString(CountOr0(story.descendants));
            var k := |d| - |Comments| - |c|;
            && k - |Separator| == |Js.IntToString(CountOr0(story.score))| + |PointsBy| + |Js.Or(story.author, "unknown")|
            && d[k - |Separator|..k] == Separator
            && d[k..|d| - |Comments|] == c
  {
    Seqs.TrailingParts(Description(story), Js.IntToString(CountOr0(story.score)), PointsBy,
                       Js.Or(story.author, "unknown"), Separator, Js.IntToString(CountOr0(story.descendants)), Comments);
  }

  /** `https://news.ycombinator.com/item?id=${id}`: the query is the numeral of the item id, which
      `Js.NumeralIsIntToString` shows is the one text `String(id)` gives. */
  function ItemUrl(id: int): (u: string)
    ensures |u| > |ItemUrlPrefix| && u[..|ItemUrlPrefix|] == ItemUrlPrefix
    ensures Js.ParseInt(u[|ItemUrlPrefix|..]) == Js.Num(id)
    ensures Js.IsNumeral(u[|ItemUrlPrefix|..]) && Js.NumeralValue(u[|ItemUrlPrefix|..]) == id
  {
    var u := ItemUrlPrefix + Js.IntToString(id);
    assert u[|ItemUrlPrefix|..] == Js.IntToString(id) + [];
    Js.ParseIntRoundTrip(id, []);
    u
  }

  /** The article of one titled story: url falls back to the item page, source is constant. */
  function ToArticle(story: Story): (a: Article)
    requires Js.Truthy(story.title)
    ensures a.title == story.title.value && a.title != ""
    ensures a.sourceName == SourceName
    ensures Js.Truthy(story.url) ==> a.url == story.url.value
    ensures !Js.Truthy(story.url) ==> a.url == ItemUrl(story.id)
    ensures a.description == Description(story)
    ensures a.publishedAtMillis == story.time * 1000
  {
    Article(story.title.value, Description(story), Js.Or(story.url, ItemUrl(story.id)), story.time * 1000, SourceName)
  }

  /** The items kept by the filter, in order. */
  function Kept(stories: seq<Option<Story>>): (k: seq<Option<Story>>)
    ensures |k| <= |stories|
    ensures forall i :: 0 <= i < |k| ==> HasTitle(k[i])
  {
    Seqs.Filter(HasTitle, stories)
  }

  /** `stories.filter(story => story && story.title).map(...)`. */
  function Articles(stories: seq<Option<Story>>): (r: seq<Article>)
    ensures |r| == |Kept(stories)| <= |stories|
    ensures forall i :: 0 <= i < |r| ==> r[i] == ToArticle(Kept(stories)[i].value)
    ensures forall i :: 0 <= i < |r| ==> r[i].title != "" && r[i].sourceName == SourceName
  {
    var kept := Kept(stories);
    seq(|kept|, i requires 0 <= i < |kept| => ToArticle(kept[i].value))
  }

  /** The articles come from the titled items only, in the order of the item list. */
  lemma ArticlesInOrder(stories: seq<Option<Story>>)
    ensures Seqs.IsSubsequence(Kept(stories), stories)
    ensures forall s :: s in Kept(stories) <==> s in stories && HasTitle(s)
  {
    Seqs.FilterIsSubsequence(HasTitle, stories);
    forall s ensures s in Kept(stories) <==> s in stories && HasTitle(s) {
      Seqs.FilterMember(HasTitle, stories, s);
    }
  }

  /** One untitled item among titled ones is dropped and the others keep their order. */
  lemma OneUntitledDropped(stories: seq<Option<Story>>, k: nat)
    requires k < |stories| && !HasTitle(stories[k])
    requires forall i :: 0 <= i < |stories| && i != k ==> HasTitle(stories[i])
    ensures Kept(stories) == stories[..k] + stories[k + 1..]
    ensures |Articles(stories)| == |stories| - 1
  {
    var before, after := stories[..k], stories[k + 1..];
    assert stories == (before + [stories[k]]) + after;
    Seqs.FilterAppend(HasTitle, before + [stories[k]], after);
    Seqs.FilterAppend(HasTitle, before, [stories[k]]);
    Seqs.FilterKeepsAll(HasTitle, before);
    Seqs.FilterKeepsAll(HasTitle, after);
    assert Seqs.Filter(HasTitle, [stories[k]]) == [];
  }

  /** One item fetch per id, awaited together: the first rejection (by position) rejects them all. */
  function FetchAll(ids: seq<int>, fetchItem: int -> Result<Option<Story>, string>): (r: Result<seq<Option<Story>>, string>)
    ensures r.Success? <==> forall i :: 0 <= i < |ids| ==> fetchItem(ids[i]).Success?
    ensures r.Success? ==> |r.value| == |ids| && forall i :: 0 <= i < |ids| ==> r.value[i] == fetchItem(ids[i]).value
    ensures r.Failure? ==> exists i :: 0 <= i < |ids| && fetchItem(ids[i]) == Failure(r.error)
  {
    if ids == [] then Success([])
    else
      match fetchItem(ids[0])
      case Failure(e) => Failure(e)
      case Success(story) =>
        var rest := FetchAll(ids[1..], fetchItem);
        assert forall i :: 1 <= i < |ids| ==> ids[i] == ids[1..][i - 1];
        match rest
        case Failure(e) => Failure(e)
        case Success(stories) => Success([story] + stories)
  }

  /** `getNews`: a non-ok id list throws 'Failed to fetch news'; otherwise the first twelve ids
      are fetched and the titled items become articles, at most twelve of them. */
  function GetNews(ids: Fetched<seq<int>>, fetchItem: int -> Result<Option<Story>, string>): (r: Result<seq<Article>, string>)
    ensures ids.NotOk? ==> r == Failure("Failed to fetch news")
    ensures ids.Threw? ==> r == Failure(ids.message)
    ensures r.Success? ==> ids.Ok? && |r.value| <= StoryLimit && |r.value| <= |ids.payload|
    ensures ids.Ok? ==> (
      var first := ids.payload[..if |ids.payload| < StoryLimit then |ids.payload| else StoryLimit];
      && (r.Success? <==> forall i :: 0 <= i < |first| ==> fetchItem(first[i]).Success?)
      && (r.Success? ==> r.value == Articles(FetchAll(first, fetchItem).value)))
  {
    match ids
    case NotOk => Failure("Failed to fetch news")
    case Threw(message) => Failure(message)
    case Ok(list) =>
      var first := list[..if |list| < StoryLimit then |list| else StoryLimit];
      match FetchAll(first, fetchItem)
      case Failure(e) =>
        assert !(forall i :: 0 <= i < |first| ==> fetchItem(first[i]).Success?);
        Failure(e)
      case Success(stories) =>
        assert |Articles(stories)| <= |stories| == |first| <= StoryLimit;
        Success(Articles(stories))
  }
}
