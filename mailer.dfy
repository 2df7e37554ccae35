/** reddit-post-mailer.py: the mean threshold followed by a stable sort by
    score, highest first; the HTML blocks of the e-mail body; and the lines
    printed to standard output. */
module Mailer {
  import opened Filtering
  import opened Selection
  import opened Decimal

  function HasScore(k: int): Post -> bool {
    (p: Post) => p.score == k
  }

  /** The posts of `s` whose score is `k`, in their order in `s`. */
  function WithScore(s: seq<Post>, k: int): seq<Post> {
    Filter(HasScore(k), s)
  }

  /** Highest score first. */
  predicate SortedByScore(s: seq<Post>) {
    forall i, j :: 0 <= i < j < |s| ==> s[i].score >= s[j].score
  }

  /** `r` holds, for every score, the same posts as `s` in the same order:
      what a stable sort keyed on the score keeps. */
  ghost predicate SameTies(r: seq<Post>, s: seq<Post>) {
    forall k :: WithScore(r, k) == WithScore(s, k)
  }

  /** Two posts of different scores never both land in one run. */
  lemma SingletonRunsCommute(a: Post, b: Post, k: int)
    requires a.score != b.score
    ensures WithScore([a], k) + WithScore([b], k) == WithScore([b], k) + WithScore([a], k)
  {
  }

  /** The run of score `k` in `a + [x, y] + b` does not change when the
      neighbours `x` and `y`, of different scores, change places. */
  lemma SwapRun(a: seq<Post>, x: Post, y: Post, b: seq<Post>, k: int)
    requires x.score != y.score
    ensures WithScore(a + [y, x] + b, k) == WithScore(a + [x, y] + b, k)
  {
    var f := HasScore(k);
    assert [x, y] == [x] + [y] && [y, x] == [y] + [x];
    FilterConcat(f, [x], [y]);
    FilterConcat(f, [y], [x]);
    SingletonRunsCommute(x, y, k);
    FilterConcat(f, a + [x, y], b);
    FilterConcat(f, a, [x, y]);
    FilterConcat(f, a + [y, x], b);
    FilterConcat(f, a, [y, x]);
  }

  /** Exchanging two neighbours with different scores keeps every run of
      equal scores in order. */
  lemma SwapKeepsTies(s: seq<Post>, j: int)
    requires 0 < j < |s| && s[j - 1].score != s[j].score
    ensures SameTies(s[j - 1 := s[j]][j := s[j - 1]], s)
  {
    var a, b := s[..j - 1], s[j + 1..];
    var t := s[j - 1 := s[j]][j := s[j - 1]];
    assert s == a + [s[j - 1], s[j]] + b;
    assert t == a + [s[j], s[j - 1]] + b;
    forall k ensures WithScore(t, k) == WithScore(s, k) {
      SwapRun(a, s[j - 1], s[j], b, k);
    }
  }

  /** `list.sort(key=score, reverse=True)` on the filtered list, in place:
      an insertion sort that moves a post left only past posts with a
      strictly lower score, so posts of equal score keep their order. */
  method SortByScore(a: array<Post>)
    modifies a
    ensures SortedByScore(a[..])
    ensures SameTies(a[..], old(a[..]))
  {
    var i := 0;
    while i < a.Length
      invariant 0 <= i <= a.Length
      invariant forall m, n :: 0 <= m < n < i ==> a[m].score >= a[n].score
      invariant SameTies(a[..], old(a[..]))
    {
      ghost var before := a[..];
      SinkInto(a, i);
      assert forall k :: WithScore(a[..], k) == WithScore(before, k);
      i := i + 1;
    }
  }

  /** One pass of the insertion sort: with `a[..i]` sorted, moves `a[i]`
      left past the posts of strictly lower score, so that `a[..i+1]` is
      sorted; the posts after `a[i]` stay where they are. */
  method SinkInto(a: array<Post>, i: int)
    requires 0 <= i < a.Length
    requires forall m, n :: 0 <= m < n < i ==> a[m].score >= a[n].score
    modifies a
    ensures forall m, n :: 0 <= m < n <= i ==> a[m].score >= a[n].score
    ensures a[i + 1..] == old(a[i + 1..])
    ensures SameTies(a[..], old(a[..]))
  {
    var j := i;
    while j > 0 && a[j - 1].score < a[j].score
      invariant 0 <= j <= i
      invariant forall m, n :: 0 <= m < n <= i && m != j && n != j ==> a[m].score >= a[n].score
      invariant forall n :: j < n <= i ==> a[j].score > a[n].score
      invariant a[i + 1..] == old(a[i + 1..])
      invariant SameTies(a[..], old(a[..]))
    {
      ghost var before := a[..];
      SwapKeepsTies(before, j);
      a[j - 1], a[j] := a[j], a[j - 1];
      assert a[..] == before[j - 1 := before[j]][j := before[j - 1]];
      assert forall k :: WithScore(a[..], k) == WithScore(before, k);
      j := j - 1;
    }
  }

  lemma {:induction false} WithScoreMembership(s: seq<Post>, k: int)
    ensures forall x :: x in WithScore(s, k) <==> x in s && x.score == k
  {
    FilterMembership(HasScore(k), s);
  }

  /** Sameness of every run of equal scores makes `r` a permutation of `s`. */
  lemma SameTiesPermutation(r: seq<Post>, s: seq<Post>)
    requires SameTies(r, s)
    ensures multiset(r) == multiset(s)
  {
    forall x ensures multiset(r)[x] == multiset(s)[x] {
      FilterMultiset(HasScore(x.score), r);
      FilterMultiset(HasScore(x.score), s);
      assert WithScore(r, x.score) == WithScore(s, x.score);
    }
  }

  /** A sorted non-empty sequence opens with its highest score. */
  lemma SortedHeadIsTop(r: seq<Post>, x: Post)
    requires SortedByScore(r) && r != [] && x in r
    ensures x.score <= r[0].score
  {
  }

  /** A post of `s` shows up in the run of its own score. */
  lemma InOwnRun(s: seq<Post>, x: Post)
    requires x in s
    ensures x in WithScore(s, x.score)
  {
    WithScoreMembership(s, x.score);
  }

  /** Runs of equal scores that agree contain the same posts. */
  lemma SameTiesMembership(r1: seq<Post>, r2: seq<Post>, x: Post)
    requires SameTies(r1, r2) && x in r2
    ensures x in r1
  {
    InOwnRun(r2, x);
    assert WithScore(r1, x.score) == WithScore(r2, x.score);
    WithScoreMembership(r1, x.score);
  }

  /** Taking the first post off both sides keeps the runs in agreement. */
  lemma SameTiesTails(r1: seq<Post>, r2: seq<Post>)
    requires r1 != [] && r2 != [] && r1[0] == r2[0]
    requires SameTies(r1, r2)
    ensures SameTies(r1[1..], r2[1..])
  {
    forall k ensures WithScore(r1[1..], k) == WithScore(r2[1..], k) {
      assert r1 == [r1[0]] + r1[1..] && r2 == [r2[0]] + r2[1..];
      FilterConcat(HasScore(k), [r1[0]], r1[1..]);
      FilterConcat(HasScore(k), [r2[0]], r2[1..]);
      var h := Filter(HasScore(k), [r1[0]]);
      var t1, t2 := WithScore(r1[1..], k), WithScore(r2[1..], k);
      assert WithScore(r1, k) == WithScore(r2, k);
      assert WithScore(r1, k) == h + t1 && WithScore(r2, k) == h + t2;
      assert (h + t1)[|h|..] == t1 && (h + t2)[|h|..] == t2;
    }
  }

  /** Two sorted sequences whose runs agree start with the same post. */
  lemma SameTiesHeads(r1: seq<Post>, r2: seq<Post>)
    requires SortedByScore(r1) && SortedByScore(r2)
    requires r1 != [] && r2 != []
    requires SameTies(r1, r2)
    ensures r1[0] == r2[0]
  {
    var x1, x2 := r1[0], r2[0];
    SameTiesMembership(r1, r2, x2);
    SortedHeadIsTop(r1, x2);
    SameTiesMembership(r2, r1, x1);
    SortedHeadIsTop(r2, x1);
    var k := x1.score;
    assert r1 == [x1] + r1[1..] && r2 == [x2] + r2[1..];
    FilterConcat(HasScore(k), [x1], r1[1..]);
    FilterConcat(HasScore(k), [x2], r2[1..]);
    assert Filter(HasScore(k), [x1]) == [x1];
    assert Filter(HasScore(k), [x2]) == [x2];
    assert WithScore(r1, k)[0] == x1 && WithScore(r2, k)[0] == x2;
  }

  /** Sortedness and sameness of the runs of equal scores pin the result
      down: two sequences with both properties are equal. So the order the
      stable sort produces is fully determined by its input. */
  lemma {:induction false} SortedSameTiesUnique(r1: seq<Post>, r2: seq<Post>)
    requires SortedByScore(r1) && SortedByScore(r2)
    requires SameTies(r1, r2)
    ensures r1 == r2
    decreases |r1|
  {
    if r1 != [] && r2 != [] {
      SameTiesHeads(r1, r2);
      SameTiesTails(r1, r2);
      SortedSameTiesUnique(r1[1..], r2[1..]);
      assert r1 == [r1[0]] + r1[1..] && r2 == [r2[0]] + r2[1..];
    } else if r1 != [] {
      SameTiesMembership(r2, r1, r1[0]);
    } else if r2 != [] {
      SameTiesMembership(r1, r2, r2[0]);
    }
  }

  /** Places `x` before the first post of the sorted `s` whose score is not
      higher than its own. */
  function Insert(x: Post, s: seq<Post>): seq<Post> {
    if s == [] || x.score >= s[0].score then [x] + s else [s[0]] + Insert(x, s[1..])
  }

  /** The reference ranking: a stable sort by score, highest first, that
      keeps earlier posts ahead of later posts of equal score. */
  function Ranked(s: seq<Post>): seq<Post> {
    if s == [] then [] else Insert(s[0], Ranked(s[1..]))
  }

  lemma {:induction false} InsertSorted(x: Post, s: seq<Post>)
    requires SortedByScore(s)
    ensures SortedByScore(Insert(x, s))
    ensures Insert(x, s)[0] == x || (s != [] && Insert(x, s)[0] == s[0])
  {
    if s != [] && x.score < s[0].score {
      InsertSorted(x, s[1..]);
      var t := Insert(x, s[1..]);
      assert t[0] == x || t[0] == s[1];
      assert Insert(x, s) == [s[0]] + t;
    }
  }

  /** One step of moving `x` right past a post `y` of a different score. */
  lemma RunPastNeighbour(x: Post, y: Post, t: seq<Post>, u: seq<Post>, k: int)
    requires x.score != y.score
    requires WithScore(u, k) == WithScore([x] + t, k)
    ensures WithScore([y] + u, k) == WithScore([x] + ([y] + t), k)
  {
    var f := HasScore(k);
    FilterConcat(f, [y], u);
    FilterConcat(f, [x], t);
    FilterConcat(f, [x], [y] + t);
    FilterConcat(f, [y], t);
    SingletonRunsCommute(x, y, k);
  }

  lemma {:induction false} InsertTies(x: Post, s: seq<Post>)
    ensures SameTies(Insert(x, s), [x] + s)
  {
    if s != [] && x.score < s[0].score {
      var y, t := s[0], s[1..];
      InsertTies(x, t);
      assert Insert(x, s) == [y] + Insert(x, t);
      assert [x] + s == [x] + ([y] + t);
      forall k ensures WithScore([y] + Insert(x, t), k) == WithScore([x] + ([y] + t), k) {
        assert WithScore(Insert(x, t), k) == WithScore([x] + t, k);
        RunPastNeighbour(x, y, t, Insert(x, t), k);
      }
    }
  }

  lemma {:induction false} RankedSortedStable(s: seq<Post>)
    ensures SortedByScore(Ranked(s))
    ensures SameTies(Ranked(s), s)
  {
    if s != [] {
      RankedSortedStable(s[1..]);
      InsertSorted(s[0], Ranked(s[1..]));
      InsertTies(s[0], Ranked(s[1..]));
      forall k ensures WithScore(Ranked(s), k) == WithScore(s, k) {
        var f := HasScore(k);
        FilterConcat(f, [s[0]], Ranked(s[1..]));
        FilterConcat(f, [s[0]], s[1..]);
        assert s == [s[0]] + s[1..];
        assert WithScore(Ranked(s), k) == WithScore([s[0]] + Ranked(s[1..]), k);
        assert WithScore(Ranked(s[1..]), k) == WithScore(s[1..], k);
      }
    }
  }

  /** Any sorted sequence with the runs of `s` is the reference ranking of `s`. */
  lemma IsRanked(r: seq<Post>, s: seq<Post>)
    requires SortedByScore(r) && SameTies(r, s)
    ensures r == Ranked(s)
  {
    RankedSortedStable(s);
    forall k ensures WithScore(r, k) == WithScore(Ranked(s), k) {
      assert WithScore(r, k) == WithScore(s, k);
      assert WithScore(Ranked(s), k) == WithScore(s, k);
    }
    SortedSameTiesUnique(r, Ranked(s));
  }

  /** What the ranking inherits from the selection it reorders. */
  lemma RankingOfSelection(posts: seq<Post>, r: seq<Post>)
    requires |posts| > 0
    requires SameTies(r, Selected(posts))
    ensures multiset(r) == multiset(Selected(posts))
    ensures forall p :: p in r ==> p.score as real > Mean(posts)
    ensures r == [] <==>
            forall i, j :: 0 <= i < |posts| && 0 <= j < |posts| ==> posts[i].score == posts[j].score
  {
    SameTiesPermutation(r, Selected(posts));
    SelectedIffAboveMean(posts);
    NoneSelectedIffAllEqual(posts);
    assert forall p :: p in r <==> multiset(r)[p] > 0;
    assert forall p :: p in Selected(posts) <==> multiset(Selected(posts))[p] > 0;
    assert r == [] <==> |multiset(r)| == 0;
    assert Selected(posts) == [] <==> |multiset(Selected(posts))| == 0;
  }

  /** filterPosts: the mean threshold, then the stable sort by score,
      highest first. An empty batch divides by zero. */
  method FilterPosts(posts: seq<Post>) returns (r: Result<seq<Post>>)
    ensures r.Failure? <==> posts == []
    ensures r.Failure? ==> r.error == ZeroDivisionError
    ensures r.Success? ==> r.value == Ranked(Selected(posts))
    ensures r.Success? ==> SortedByScore(r.value)
    ensures r.Success? ==> SameTies(r.value, Selected(posts))
    ensures r.Success? ==> multiset(r.value) == multiset(Selected(posts))
    ensures r.Success? ==> forall p :: p in r.value ==> p.score as real > Mean(posts)
    ensures r.Success? ==> (r.value == [] <==>
              forall i, j :: 0 <= i < |posts| && 0 <= j < |posts| ==> posts[i].score == posts[j].score)
  {
    var scores := CollectScores(posts);
    if |scores| == 0 {
      return Failure(ZeroDivisionError);
    }
    assert scores == Scores(posts);
    var total := Sum(scores);
    var filtered := Filter(Above(total, |scores|), posts);
    var a := new Post[|filtered|](i requires 0 <= i < |filtered| => filtered[i]);
    assert a[..] == Selected(posts);
    SortByScore(a);
    r := Success(a[..]);
    RankingOfSelection(posts, a[..]);
    IsRanked(a[..], Selected(posts));
  }

  /** The `<h5>` heading of a post's e-mail block. */
  function Heading(p: Post): string {
    "<h5>" + IntToString(p.score) + " Upvotes - <a href=" + p.url + ">" + p.title + "</a></h5>"
  }

  /** The link line of a post's e-mail block. */
  function Link(p: Post): string {
    "<a href=" + p.url + ">" + p.url + "</a>"
  }

  /** The `<div>` block of one post. */
  function EmailBlock(p: Post): string {
    "<div>" + Heading(p) + Link(p) + "</div>"
  }

  /** formatEmailContent: one block per post, each followed by a `<br>`. */
  method FormatEmailContent(posts: seq<Post>) returns (content: seq<string>)
    ensures |content| == 2 * |posts|
    ensures forall i :: 0 <= i < |posts| ==> content[2 * i] == EmailBlock(posts[i])
    ensures forall i :: 0 <= i < |posts| ==> content[2 * i + 1] == "<br>"
  {
    content := [];
    var i := 0;
    while i < |posts|
      invariant 0 <= i <= |posts|
      invariant |content| == 2 * i
      invariant forall j :: 0 <= j < i ==> content[2 * j] == EmailBlock(posts[j])
      invariant forall j :: 0 <= j < i ==> content[2 * j + 1] == "<br>"
    {
      var html := EmailBlock(posts[i]);
      content := content + [html];
      content := content + ["<br>"];
      i := i + 1;
    }
  }

  /** Each block opens with `<div><h5>` followed by the post's score, which
      reads back exactly. */
  lemma EmailBlockScore(p: Post)
    ensures EmailBlock(p)[..9] == "<div><h5>"
    ensures ParseInt(EmailBlock(p)[9..]) == Some(p.score)
  {
    var rest := " Upvotes - <a href=" + p.url + ">" + p.title + "</a></h5>" + Link(p) + "</div>";
    assert EmailBlock(p) == "<div><h5>" + (IntToString(p.score) + rest);
    ParseIntOfRendered(p.score, rest);
  }

  /** The text of one `print` call in printPosts; `print` then ends it with
      a newline. */
  function PostLine(p: Post): string {
    "^" + IntToString(p.score) + " : " + p.title + "\n" + p.url
  }

  /** printPosts: one line pair per post, in order. */
  method PrintPosts(posts: seq<Post>) returns (out: seq<string>)
    ensures |out| == |posts|
    ensures forall i :: 0 <= i < |posts| ==> out[i] == PostLine(posts[i])
  {
    out := [];
    var i := 0;
    while i < |posts|
      invariant 0 <= i <= |posts|
      invariant |out| == i
      invariant forall j :: 0 <= j < i ==> out[j] == PostLine(posts[j])
    {
      out := out + [PostLine(posts[i])];
      i := i + 1;
    }
  }

  /** A printed line is `^` and the score, which reads back exactly. */
  lemma PostLineScore(p: Post)
    ensures PostLine(p)[0] == '^'
    ensures ParseInt(PostLine(p)[1..]) == Some(p.score)
  {
    var rest := " : " + p.title + "\n" + p.url;
    assert PostLine(p) == "^" + (IntToString(p.score) + rest);
    ParseIntOfRendered(p.score, rest);
  }

  function Sample(id: string, score: int, utc: int): Post {
    Post(id, "t" + id, score, 0, utc, "u" + id)
  }

  /** Scores 10, 2, 8, 2 have mean 5.5: the ranking is the 10 and then the 8. */
  lemma ExampleMeanCut()
    ensures Ranked(Selected([Sample("a", 10, 1), Sample("b", 2, 2), Sample("c", 8, 3), Sample("d", 2, 4)]))
            == [Sample("a", 10, 1), Sample("c", 8, 3)]
  {
  }

  /** Scores 7, 1, 7 have mean 5: both posts of score 7 survive and the
      earlier stays ahead of the later. */
  lemma ExampleTieKeepsOrder()
    ensures Ranked(Selected([Sample("a", 7, 1), Sample("b", 1, 2), Sample("c", 7, 3)]))
            == [Sample("a", 7, 1), Sample("c", 7, 3)]
  {
  }
}
