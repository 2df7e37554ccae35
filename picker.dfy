/** reddit-picker.py: the mean threshold without a sort, and the lines
    printed to standard output. */
module Picker {
  import opened Filtering
  import opened Selection
  import opened Decimal

  /** filterPosts: the posts strictly above the batch mean, in input order.
      An empty batch divides by zero. */
  method FilterPosts(posts: seq<Post>) returns (r: Result<seq<Post>>)
    ensures r.Failure? <==> posts == []
    ensures r.Failure? ==> r.error == ZeroDivisionError
    ensures r.Success? ==> r.value == Selected(posts)
    ensures r.Success? ==> IsSubsequence(r.value, posts) && |r.value| <= |posts|
    ensures r.Success? ==> forall p :: p in r.value ==> p.score * |posts| > Sum(Scores(posts))
    ensures r.Success? ==> forall p :: p in posts && p.score * |posts| > Sum(Scores(posts)) ==> p in r.value
  {
    var scores := CollectScores(posts);
    if |scores| == 0 {
      return Failure(ZeroDivisionError);
    }
    assert scores == Scores(posts);
    var total := Sum(scores);
    r := Success(Filter(Above(total, |scores|), posts));
    SelectedIffAboveMean(posts);
    FilterIsSubsequence(Above(total, |scores|), posts);
    SubsequenceBounds(r.value, posts);
    SelectedExactly(posts);
  }

  /** The text of one `print` call in printPosts; `print` then ends it with
      a newline. */
  function PostLine(p: Post): string {
    IntToString(p.score) + " : " + p.title + "\n" + p.url
  }

  /** printPosts: one line pair per post, in order. */
  method PrintPosts(posts: seq<Post>) returns (out: seq<string>)
    ensures |out| == |posts|
    ensures forall i :: 0 <= i < |posts| ==> out[i] == PostLine(posts[i])
  {
    out := [];
    var i := 0;
    while i < |posts|
      invariant 0 <= i <= |posts|
      invariant |out| == i
      invariant forall j :: 0 <= j < i ==> out[j] == PostLine(posts[j])
    {
      out := out + [PostLine(posts[i])];
      i := i + 1;
    }
  }

  /** A printed line opens with the score, which reads back exactly, then
      ` : `, the title, a newline and the url. */
  lemma PostLineScore(p: Post)
    ensures ParseInt(PostLine(p)) == Some(p.score)
    ensures PostLine(p)[|IntToString(p.score)|..] == " : " + p.title + "\n" + p.url
  {
    var rest := " : " + p.title + "\n" + p.url;
    assert PostLine(p) == IntToString(p.score) + rest;
    ParseIntOfRendered(p.score, rest);
  }

  /** Scores 2, 8, 10, 2 have mean 5.5: the 8 and the 10 survive, in input
      order, since this script does not sort. */
  lemma ExampleKeepsInputOrder()
    ensures Selected([Post("a", "ta", 2, 0, 1, "ua"), Post("b", "tb", 8, 0, 2, "ub"),
                      Post("c", "tc", 10, 0, 3, "uc"), Post("d", "td", 2, 0, 4, "ud")])
            == [Post("b", "tb", 8, 0, 2, "ub"), Post("c", "tc", 10, 0, 3, "uc")]
  {
  }
}
