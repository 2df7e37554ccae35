/** The post records and the two selection steps both scripts share: the
    score floor applied while collecting fetched submissions, and the
    mean-score threshold. Both scripts contain the same copies of these
    steps (only the reporting of the mean differs: one prints it, the other
    logs it); they are modelled once here. */
module Selection {
  import opened Filtering

  /** A fetched submission, with the attributes the scripts read from the
      platform client. */
  datatype Submission = Submission(
    id: string, title: string, score: int, numComments: int, createdUtc: int, url: string)

  /** The dictionary the scripts build per submission: id, title, score,
      comment_quantity, utc and url. */
  datatype Post = Post(id: string, title: string, score: int, comments: int, utc: int, url: string)

  /** `sum(scores) / len(scores)` on an empty list raises ZeroDivisionError. */
  datatype Error = ZeroDivisionError

  datatype Result<T> = Success(value: T) | Failure(error: Error)

  /** The dictionary literal built for each fetched submission. */
  function ToPost(s: Submission): Post {
    Post(s.id, s.title, s.score, s.numComments, s.createdUtc, s.url)
  }

  /** The records built for the fetched submissions, in fetch order. */
  function Copies(fetched: seq<Submission>): (r: seq<Post>)
    ensures |r| == |fetched|
  {
    seq(|fetched|, i requires 0 <= i < |fetched| => ToPost(fetched[i]))
  }

  function AtLeast(minScore: int): Post -> bool {
    (p: Post) => p.score >= minScore
  }

  /** The posts the collection loop keeps. */
  function Floor(fetched: seq<Submission>, minScore: int): seq<Post> {
    Filter(AtLeast(minScore), Copies(fetched))
  }

  /** The collection loop: build each record and keep it when its score
      reaches the floor. */
  method CollectSuitable(fetched: seq<Submission>, minScore: int) returns (posts: seq<Post>)
    ensures posts == Floor(fetched, minScore)
  {
    posts := [];
    var i := 0;
    while i < |fetched|
      invariant 0 <= i <= |fetched|
      invariant posts == Filter(AtLeast(minScore), Copies(fetched[..i]))
    {
      var p := ToPost(fetched[i]);
      assert Copies(fetched[..i + 1]) == Copies(fetched[..i]) + [p];
      FilterConcat(AtLeast(minScore), Copies(fetched[..i]), [p]);
      if p.score >= minScore {
        posts := posts + [p];
      }
      i := i + 1;
    }
    assert fetched[..i] == fetched;
  }

  /** The floor keeps exactly the records whose score reaches it, in fetch
      order, each as often as it was fetched, with its fields copied from
      the submission. */
  lemma FloorKeepsExactly(fetched: seq<Submission>, minScore: int)
    ensures IsSubsequence(Floor(fetched, minScore), Copies(fetched))
    ensures forall p :: p in Floor(fetched, minScore) <==> p in Copies(fetched) && p.score >= minScore
    ensures forall p :: multiset(Floor(fetched, minScore))[p]
                        == if p.score >= minScore then multiset(Copies(fetched))[p] else 0
    ensures forall i :: 0 <= i < |fetched| ==>
              Copies(fetched)[i].id == fetched[i].id && Copies(fetched)[i].title == fetched[i].title &&
              Copies(fetched)[i].score == fetched[i].score && Copies(fetched)[i].comments == fetched[i].numComments &&
              Copies(fetched)[i].utc == fetched[i].createdUtc && Copies(fetched)[i].url == fetched[i].url
  {
    FilterIsSubsequence(AtLeast(minScore), Copies(fetched));
    FilterMembership(AtLeast(minScore), Copies(fetched));
    FilterMultiset(AtLeast(minScore), Copies(fetched));
  }

  function Scores(posts: seq<Post>): (r: seq<int>)
    ensures |r| == |posts|
  {
    seq(|posts|, i requires 0 <= i < |posts| => posts[i].score)
  }

  /** Python's `sum` of a list of integers. */
  function Sum(xs: seq<int>): int {
    if xs == [] then 0 else xs[0] + Sum(xs[1..])
  }

  /** The loop that gathers the scores of the batch. */
  method CollectScores(posts: seq<Post>) returns (scores: seq<int>)
    ensures |scores| == |posts|
    ensures forall i :: 0 <= i < |posts| ==> scores[i] == posts[i].score
  {
    scores := [];
    var i := 0;
    while i < |posts|
      invariant 0 <= i <= |posts|
      invariant |scores| == i
      invariant forall j :: 0 <= j < i ==> scores[j] == posts[j].score
    {
      scores := scores + [posts[i].score];
      i := i + 1;
    }
  }

  /** The mean of the batch, as the scripts compute it before comparing. */
  ghost function Mean(posts: seq<Post>): real
    requires |posts| > 0
  {
    (Sum(Scores(posts)) as real) / (|posts| as real)
  }

  /** The integer form of `score > total / n`. */
  function Above(total: int, n: int): Post -> bool {
    (p: Post) => p.score * n > total
  }

  /** The posts kept by the mean threshold, in input order. */
  function Selected(posts: seq<Post>): seq<Post> {
    Filter(Above(Sum(Scores(posts)), |posts|), posts)
  }

  /** For a positive count the cross-multiplied test is the comparison with
      the exact mean. */
  lemma AboveMeanExact(score: int, total: int, n: int)
    requires n > 0
    ensures score * n > total <==> score as real > (total as real) / (n as real)
  {
  }

  /** A post is selected exactly when it is in the batch and its score is
      strictly above the batch mean. */
  lemma SelectedIffAboveMean(posts: seq<Post>)
    requires |posts| > 0
    ensures forall p :: p in Selected(posts) <==> p in posts && p.score as real > Mean(posts)
    ensures forall p :: p in Selected(posts) <==> p in posts && p.score * |posts| > Sum(Scores(posts))
  {
    FilterMembership(Above(Sum(Scores(posts)), |posts|), posts);
    forall p: Post {
      AboveMeanExact(p.score, Sum(Scores(posts)), |posts|);
    }
  }

  /** Nothing is added or duplicated and no qualifying post is lost, and the
      input order is kept. */
  lemma SelectedExactly(posts: seq<Post>)
    ensures IsSubsequence(Selected(posts), posts)
    ensures |Selected(posts)| <= |posts|
    ensures forall p :: multiset(Selected(posts))[p]
                        == if p.score * |posts| > Sum(Scores(posts)) then multiset(posts)[p] else 0
  {
    FilterIsSubsequence(Above(Sum(Scores(posts)), |posts|), posts);
    FilterMultiset(Above(Sum(Scores(posts)), |posts|), posts);
  }

  lemma {:induction false} SumOfConstant(xs: seq<int>, c: int)
    requires forall i :: 0 <= i < |xs| ==> xs[i] == c
    ensures Sum(xs) == |xs| * c
  {
    if xs != [] {
      SumOfConstant(xs[1..], c);
    }
  }

  /** If every scaled term is at most `bound`, so is the scaled sum. */
  lemma {:induction false} ScaledSumAtMost(xs: seq<int>, n: int, bound: int)
    requires forall i :: 0 <= i < |xs| ==> xs[i] * n <= bound
    ensures Sum(xs) * n <= |xs| * bound
  {
    if xs != [] {
      ScaledSumAtMost(xs[1..], n, bound);
      assert Sum(xs) * n == xs[0] * n + Sum(xs[1..]) * n;
    }
  }

  /** If every scaled term is at most `bound` and the scaled sum reaches
      `|xs| * bound`, every scaled term equals `bound`. */
  lemma {:induction false} ScaledSumTight(xs: seq<int>, n: int, bound: int)
    requires forall i :: 0 <= i < |xs| ==> xs[i] * n <= bound
    requires Sum(xs) * n >= |xs| * bound
    ensures forall i :: 0 <= i < |xs| ==> xs[i] * n == bound
  {
    if xs != [] {
      var t := xs[1..];
      assert Sum(xs) * n == xs[0] * n + Sum(t) * n;
      ScaledSumAtMost(t, n, bound);
      assert |xs| * bound == bound + |t| * bound;
      ScaledSumTight(t, n, bound);
      assert forall i :: 1 <= i < |xs| ==> xs[i] == t[i - 1];
    }
  }

  lemma CancelFactor(a: int, b: int, n: int)
    requires n > 0 && a * n == b * n
    ensures a == b
  {
  }

  /** On a non-empty batch nothing is selected exactly when every post has
      the same score: nobody is then strictly above the mean. */
  lemma NoneSelectedIffAllEqual(posts: seq<Post>)
    requires |posts| > 0
    ensures Selected(posts) == [] <==>
            forall i, j :: 0 <= i < |posts| && 0 <= j < |posts| ==> posts[i].score == posts[j].score
  {
    var xs, n := Scores(posts), |posts|;
    var total := Sum(xs);
    FilterEmpty(Above(total, n), posts);
    if Selected(posts) == [] {
      assert forall i :: 0 <= i < n ==> xs[i] * n <= total;
      assert Sum(xs) * n >= |xs| * total;
      ScaledSumTight(xs, n, total);
      forall i, j | 0 <= i < n && 0 <= j < n ensures posts[i].score == posts[j].score {
        CancelFactor(xs[i], xs[j], n);
      }
    } else {
      var k :| 0 <= k < n && Above(total, n)(posts[k]);
      if forall i, j :: 0 <= i < n && 0 <= j < n ==> posts[i].score == posts[j].score {
        SumOfConstant(xs, posts[k].score);
        assert false;
      }
    }
  }
}
