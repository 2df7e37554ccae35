# reddit-post-mailer: the post selection pipeline in Dafny

The repository holds two scripts. `reddit-post-mailer.py` fetches the newest
submissions of a subreddit and keeps those whose score reaches a floor. It
then keeps the posts strictly above the batch's mean score and sorts them
by score, highest first. The survivors can be printed or mailed as HTML
blocks. `reddit-picker.py` is an earlier version with the same floor and
mean threshold. It does not sort, and it only prints.

This project models what happens between the fetch and the delivery:

- `Selection`: the per-post record both scripts build, the score-floor
  collection loop, the loop that gathers scores, and the mean threshold.
  Both scripts contain the same copies of these steps (they differ only in
  how the mean is reported: the picker prints it, the mailer logs it), so
  they are modelled once and used by both script modules.
- `Mailer` (`reddit-post-mailer.py`): `filterPosts` is the mean threshold
  followed by the in-place stable sort. The sort is an insertion sort on an
  `array`, proved against a reference ranking `Ranked`. `formatEmailContent`
  and the `printPosts` line are modelled too.
- `Picker` (`reddit-picker.py`): `filterPosts` without the sort, and its
  `printPosts` line.
- `Filtering`: Python's `list(filter(f, xs))`, with its guarantees. The
  result is an order-preserving subsequence, and it holds each element
  satisfying `f` as often as the input does.
- `Decimal`: `str()` of a Python `int`, plus a reader that recovers the
  integer. The reader is not in the scripts. It is used to show that the
  printed lines and e-mail blocks carry each post's score exactly.

The mean test `score > sum(scores) / len(scores)` is stated over integers as
`score * n > sum`. `Selection.AboveMeanExact` proves this equals comparing
with the exact (real-valued) mean whenever `n > 0`. An empty batch makes
Python raise `ZeroDivisionError`. The model returns
`Failure(ZeroDivisionError)` in that case.

"Stable" is stated through `WithScore(s, k)`, the posts of `s` with score
`k` in their order in `s`. A stable sort leaves every `WithScore` unchanged
(`SameTies`). `Mailer.SortedSameTiesUnique` proves that being sorted and
`SameTies` together fix the output, so the mailer's result equals
`Ranked(Selected(posts))`.

Neither script has watermark filtering, pagination, a links-only output
mode or a minimum-result-count no-op. The e-mail blocks carry score, url and
title, not the comment count.

## Model

| member | source | states |
|---|---|---|
| `Selection.CollectSuitable` | reddit-post-mailer.py:123-138 | the collection loop returns exactly the floor filter of the record copies, in fetch order (reddit-picker.py:100-113 is the same loop) |
| `Selection.FloorKeepsExactly` | reddit-post-mailer.py:125-134 | the kept posts are an order-preserving subsequence of the fetched records. A record is kept iff its score is `>= min_post_score`, as often as it was fetched. Every field is copied from its submission |
| `Selection.CollectScores` | reddit-post-mailer.py:144-146 | the scores list has one entry per post, equal to that post's score, in order (reddit-picker.py:118-120 is the same loop) |
| `Selection.AboveMeanExact` | reddit-post-mailer.py:148-152 | for `n > 0`, `score * n > total` holds iff `score` is strictly greater than the exact mean `total / n` |
| `Selection.SelectedIffAboveMean` | reddit-post-mailer.py:148-153 | a post survives the threshold iff it is in the batch and its score is strictly above the batch mean (both the real and the integer forms) |
| `Selection.SelectedExactly` | reddit-post-mailer.py:152-153 | the survivors are an order-preserving subsequence of the batch, no longer than it. Each post above the mean occurs as often as in the batch, and no other post occurs (reddit-picker.py:125) |
| `Selection.NoneSelectedIffAllEqual` | reddit-post-mailer.py:148-153 | on a non-empty batch nothing survives iff all scores are equal |
| `Filtering.FilterMultiset` | reddit-post-mailer.py:152-153 | `filter` keeps each element satisfying the predicate as often as the input holds it, and drops every other element |
| `Filtering.FilterIsSubsequence` | reddit-picker.py:125 | `filter` returns a subsequence of its input, in input order |
| `Mailer.SortByScore` | reddit-post-mailer.py:156 | the in-place sort leaves the array sorted by score, highest first. For every score, the posts with that score keep their order (stability) |
| `Mailer.SinkInto` | reddit-post-mailer.py:156 | one insertion pass extends the sorted prefix by one post, leaves the posts after it untouched, and keeps every run of equal scores in order |
| `Mailer.SwapKeepsTies` | reddit-post-mailer.py:156 | exchanging neighbours of different scores keeps every run of equal scores in order |
| `Mailer.SameTiesPermutation` | reddit-post-mailer.py:156 | reordering that keeps every run of equal scores is a permutation |
| `Mailer.SortedSameTiesUnique` | reddit-post-mailer.py:156 | two sequences that are both sorted by score and have the same runs of equal scores are equal: a stable sort's output is determined by its input |
| `Mailer.RankedSortedStable` | reddit-post-mailer.py:156 | the reference ranking is sorted by score, highest first, and stable |
| `Mailer.IsRanked` | reddit-post-mailer.py:156 | any sorted sequence with the runs of `s` is the reference ranking of `s` |
| `Mailer.RankingOfSelection` | reddit-post-mailer.py:148-156 | a stable reordering of the survivors is a permutation of them. All its posts lie strictly above the mean. It is empty iff all batch scores are equal |
| `Mailer.FilterPosts` | reddit-post-mailer.py:140-158 | empty input fails with `ZeroDivisionError`. Otherwise the result is the reference ranking of the survivors: sorted by score, highest first, and stable. It is a permutation of exactly the posts strictly above the mean, and it is empty iff all scores are equal |
| `Mailer.ExampleMeanCut` | reddit-post-mailer.py:148-156 | scores 10, 2, 8, 2 (mean 5.5) give the 10 and then the 8 |
| `Mailer.ExampleTieKeepsOrder` | reddit-post-mailer.py:156 | scores 7, 1, 7 (mean 5) give both 7s, the earlier one first |
| `Mailer.FormatEmailContent` | reddit-post-mailer.py:84-96 | the content list has `2 * len(posts)` entries. Entry `2i` is the `<div>` block of post `i`; entry `2i+1` is `<br>` |
| `Mailer.EmailBlockScore` | reddit-post-mailer.py:89-91 | every block opens with `<div><h5>` followed by the post's score, which reads back exactly |
| `Mailer.PrintPosts` | reddit-post-mailer.py:160-166 | one printed text per post, in order, each `^{score} : {title}\n{url}` |
| `Mailer.PostLineScore` | reddit-post-mailer.py:166 | a printed text opens with `^` and then the score, which reads back exactly |
| `Picker.FilterPosts` | reddit-picker.py:115-127 | empty input fails with `ZeroDivisionError`. Otherwise the result is the survivors in input order: a subsequence of the input, no longer than it. Every result post is strictly above the mean (as `score * n > sum`), and every input post strictly above the mean is in the result |
| `Picker.ExampleKeepsInputOrder` | reddit-picker.py:122-125 | scores 2, 8, 10, 2 (mean 5.5) give the 8 and then the 10, unsorted |
| `Picker.PrintPosts` | reddit-picker.py:129-133 | one printed text per post, in order, each `{score} : {title}\n{url}` |
| `Picker.PostLineScore` | reddit-picker.py:133 | a printed text opens with the score, which reads back exactly, followed by ` : `, the title, a newline and the url |
| `Decimal.ParseIntOfRendered` | reddit-picker.py:133 | the decimal rendering of any integer, followed by a non-digit or by nothing, reads back as that integer |

## Left out

- Credential decryption through `gpg` (`subprocess.getoutput`) and the file checks of `gpgIsFound`: shell and filesystem I/O.
- The `praw.Reddit` session and `subreddit.new(limit=150)`: a network client. The model takes the fetched submissions as a sequence in fetch order, so the 150-post limit is not modelled.
- `sendMail` and `yagmail.SMTP`, including the subject line and the hard-coded test message in reddit-picker.py: mail transport.
- `loadArgs`, `argparse`, logging and the module globals. `min_post_score` is a parameter; the two `main` functions that wire the steps together are not modelled.
- `formatEmailContent` in reddit-picker.py: it is an unimplemented stub that returns `None`.
- setup.py: packaging metadata.
- `Picker.FilterPosts`: the line `Calculated score average is {avg_score}` that reddit-picker.py:123 prints to standard output is not modelled, since it renders a float; the mailer's counterpart at reddit-post-mailer.py:149 is a `logging.debug` call.
- `Selection.AboveMeanExact`: the scripts compare against a floating-point quotient. The model uses the exact mean, so it does not capture rounding for sums too large for a double to hold exactly.
- `Selection.Submission`: `created_utc` is a float in the client library; the model stores it as an integer.
- `Mailer.PrintPosts` and `Picker.PrintPosts`: standard output is modelled as the list of texts passed to `print`. Each text is written followed by a newline.
- `Mailer.SortByScore`: Python's built-in sort is Timsort. It is modelled by an insertion sort with the same result (sorted by score, highest first, stable), not the same steps.
