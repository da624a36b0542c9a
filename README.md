# 3D word cloud: keyword layout and keyword analysis

This project models the two pieces of logic in the 3D word cloud application,
with the rendering and the library calls around them removed.

- `WordCloud3D` (`wordcloud3d.dfy`) is the frontend's spherical layout. The
  ordered list of keywords `{word, weight}` becomes one point per keyword. The
  point has polar angle `phi = acos(-1 + 2i/N)` and azimuth
  `theta = sqrt(N·π)·phi`, on a sphere of radius 3. Each keyword also gets a
  font size `0.5 + min(2, 0.5·weight)`, and one label keyed by its index `i`.
  JavaScript numbers are modelled as `real`. `acos`, `sin`, `cos`, `sqrt` and
  `π` are the fields of a `Trig` value that the layout takes as a parameter.
  They are never computed. The fact the geometry needs of them,
  sin² + cos² = 1, is a hypothesis of the lemmas that use it.
- `ArticleAnalysis` (`article_analysis.dfy`) is the backend's `/analyze`
  endpoint. Its foreign calls are inputs: the fetch outcome, the HTML parser
  (a function from page text to a `Document`), the TF-IDF vectorizer (a
  function from text to feature names and scores) and the rounding of a
  score. The model covers:
  - the classification of fetch failures as status 500;
  - the fallback chain that picks the text (article, then joined paragraphs,
    then the whole page), written as the same sequence of reassignments;
  - Python's `strip` and the rejection of empty text with status 422;
  - `sorted(..., reverse=True)` as a stable insertion sort on descending score;
  - the list built from the ranked pairs.

Two behaviours of the code are proved as they are:
- The emptiness test runs before the strip. An `<article>` whose text is only
  whitespace therefore wins over the paragraphs, and the page is then
  rejected with 422 (`WhitespaceArticleShadowsParagraphs`).
- Two or more `<p>` elements always join to a non-empty text, even when every
  one of them is empty. So the whole-page fallback is only reached with at most
  one paragraph (`JoinWithSpace`, `EmptyParagraphsShadowWholeText`).

Two further details of the code:
- The acos argument divides by `N`, not by `N - 1`. Item 0 sits at argument
  -1, and no item reaches +1.
- The size has no lower clamp, and nothing guards against non-finite weights.

The keyword record `{word, weight}` is one type, `Keywords.Keyword`, shared by
both modules: it is what the backend returns and what the cloud renders.

## Model

| member | source | states |
|---|---|---|
| WordCloud3D.AcosArg | Frontend/src/WordCloud3D.tsx:31-32 | for an index below N the acos argument lies in [-1, 1); it is -1 exactly for the first item; N is positive wherever it is divided by |
| WordCloud3D.AcosArgStep | Frontend/src/WordCloud3D.tsx:32 | consecutive items' acos arguments differ by exactly 2/N |
| WordCloud3D.AcosArgIncreasing | Frontend/src/WordCloud3D.tsx:32 | the acos argument is strictly increasing in the index |
| WordCloud3D.Phi | Frontend/src/WordCloud3D.tsx:32 | no contract of its own: the polar angle is acos of `AcosArg`, whose contract gives the argument's range; PositionOnSphere uses it |
| WordCloud3D.Theta | Frontend/src/WordCloud3D.tsx:33 | no contract of its own: the azimuth sqrt(N·π)·phi, used by PositionOnSphere |
| WordCloud3D.PositionAt | Frontend/src/WordCloud3D.tsx:34-38 | no contract of its own: PositionOnSphere states its norm, LabelsUseLayout ties labels to it |
| WordCloud3D.Layout | Frontend/src/WordCloud3D.tsx:31-39 | exactly one position per keyword; the empty list gives no positions |
| WordCloud3D.LayoutIgnoresContent | Frontend/src/WordCloud3D.tsx:31-39 | two keyword lists of the same length get identical positions, whatever their words and weights |
| WordCloud3D.PositionOnSphere | Frontend/src/WordCloud3D.tsx:30-38 | if sin² + cos² = 1 at the item's theta and phi, its position has x² + y² + z² = radius² = 9 |
| WordCloud3D.LayoutOnSphere | Frontend/src/WordCloud3D.tsx:30-39 | if sin² + cos² = 1 for every angle, every position of the layout lies at distance 3 from the origin |
| WordCloud3D.Size | Frontend/src/WordCloud3D.tsx:53 | the size never exceeds 2.5; it is 0.5 + 0.5·w up to w = 4 and exactly 2.5 from w = 4 on |
| WordCloud3D.SizeAtZero | Frontend/src/WordCloud3D.tsx:53 | weight 0 gives the base size 0.5 |
| WordCloud3D.SizeMonotone | Frontend/src/WordCloud3D.tsx:53 | the size is non-decreasing in the weight |
| WordCloud3D.SizeNoLowerClamp | Frontend/src/WordCloud3D.tsx:53 | a negative weight w gives 0.5 + 0.5·w, below the base size |
| WordCloud3D.Labels | Frontend/src/WordCloud3D.tsx:48-55 | exactly one label per keyword, label i keyed by i and showing keyword i's word |
| WordCloud3D.LabelsUseLayout | Frontend/src/WordCloud3D.tsx:48-55 | label i sits at position i of the layout and has the size of keyword i's weight |
| WordCloud3D.OfflineDemoLayout | Frontend/src/App.tsx:58-69 | the offline list has ten strictly decreasing weights, yields ten positions and label sizes strictly decreasing from 0.975 to 0.8 |
| ArticleAnalysis.FetchText | Backend/main.py:28-39 | the fetch fails exactly when the request raised or the status is 4xx/5xx; a failure is status 500 with detail starting "Failed to fetch article: " followed by the message of the exception raised, for a raised request and for a 4xx/5xx status alike; otherwise the page text is passed on |
| ArticleAnalysis.IsErrorStatus | Backend/main.py:37 | no contract of its own: the 400-599 range for which `raise_for_status` raises; FetchText's contract states its effect |
| ArticleAnalysis.Candidates | Backend/main.py:46-54 | exactly three candidate texts, in the order tried; SelectText and FirstNonEmpty state the choice among them |
| ArticleAnalysis.FirstNonEmpty | Backend/main.py:46-54 | the result is empty exactly when every candidate is; otherwise it is a candidate all of whose predecessors are empty |
| ArticleAnalysis.SelectText | Backend/main.py:46-54 | the successive reassignments yield the first non-empty of: article text (empty when there is no article), space-joined paragraphs, whole-page text |
| ArticleAnalysis.JoinWithSpace | Backend/main.py:52 | the space-join of the paragraphs is empty exactly when there are none or one empty one |
| ArticleAnalysis.EmptyParagraphsShadowWholeText | Backend/main.py:50-54 | without an article, two or more paragraphs are selected even when all are empty, so the whole-page text is not used |
| ArticleAnalysis.WhitespaceArticleShadowsParagraphs | Backend/main.py:46-58 | a non-empty all-whitespace article text is selected and strips to the empty text |
| ArticleAnalysis.IsSpace | Backend/main.py:56 | no contract of its own: the characters `str.isspace` accepts, which `strip` removes; Strip, StripEmptyIff and StripOffset use it |
| ArticleAnalysis.TrimStart | Backend/main.py:56 | the result is a suffix of the text, everything before it is whitespace, and a non-empty result starts with non-whitespace |
| ArticleAnalysis.TrimEnd | Backend/main.py:56 | the result is a prefix of the text, everything after it is whitespace, and a non-empty result ends with non-whitespace |
| ArticleAnalysis.Strip | Backend/main.py:56 | a non-empty stripped text starts and ends with non-whitespace |
| ArticleAnalysis.StripEmptyIff | Backend/main.py:56-58 | the stripped text is empty exactly when the selected text is all whitespace, which is when the 422 is raised |
| ArticleAnalysis.StripOffset | Backend/main.py:56 | the stripped text is a contiguous piece of the text, with only whitespace before and after it |
| ArticleAnalysis.StripIdempotent | Backend/main.py:56 | stripping a stripped text changes nothing |
| ArticleAnalysis.Zip | Backend/main.py:65 | the zipped list is as long as the shorter input and pairs the i-th name with the i-th score |
| ArticleAnalysis.InsertByScore | Backend/main.py:65 | inserting one pair adds exactly one element; InsertPermutation, InsertNonIncreasing and InsertWithScore carry the rest |
| ArticleAnalysis.RankByScore | Backend/main.py:65 | the ranking has as many pairs as its input; RankNonIncreasing, RankPermutation and RankStable carry the rest |
| ArticleAnalysis.RankNonIncreasing | Backend/main.py:65 | the ranked pairs are sorted by score, non-increasing |
| ArticleAnalysis.RankPermutation | Backend/main.py:65 | the ranked pairs are a permutation of the zipped pairs |
| ArticleAnalysis.RankStable | Backend/main.py:65 | for every score, the pairs with that score appear in the ranking in their original order |
| ArticleAnalysis.Shape | Backend/main.py:67 | one response entry per ranked pair; ResponsePermutation states the words and weights |
| ArticleAnalysis.Respond | Backend/main.py:63-67 | the response has one entry per zipped (feature, score) pair; ResponsePermutation and ResponseNonIncreasing carry the rest |
| ArticleAnalysis.ResponsePermutation | Backend/main.py:63-67 | with as many scores as names, the response has one entry per feature, is a permutation of the zipped pairs, and keeps every name with its own rounded score |
| ArticleAnalysis.ResponseNonIncreasing | Backend/main.py:65-67 | with a monotone rounding, the response weights are non-increasing |
| ArticleAnalysis.AnalyzeArticle | Backend/main.py:28-67 | a failed fetch yields the 500 error and nothing is parsed; otherwise, if the stripped selection is empty the result is 422 "No text found in the article", else the vectorizer runs on the stripped text: if it raises (modelled as `None`) the result is the server's generic 500, otherwise the response built from its output |

## Left out

- Rendering: the canvas, the `Text` labels' colours and anchors, lights, the camera, and `OrbitControls` with zoom and auto-rotation at speed 1.0 (Frontend/src/WordCloud3D.tsx:15-26, 42-57). These are three.js drawing driven frame by frame by the host loop.
- The per-frame `lookAt(0, 0, 0)` of each label (Frontend/src/WordCloud3D.tsx:10-14) is floating-point matrix work inside the library, and the model does not include it. In the code the labels are turned toward the origin, not toward the orbiting camera.
- Concrete values of `Math.acos`, `Math.sin`, `Math.cos`, `Math.sqrt` and `Math.PI`, and IEEE rounding: these have no counterpart over `real`, so they stay abstract.
- NaN and infinite weights and scores: `real` has neither. The code does not guard them, so no clamping of them is modelled.
- The React application around the cloud (Frontend/src/App.tsx): UI state, the request to the backend, the buttons and the loading and error display. Its offline list is used only as concrete input.
- The HTTP request itself: URL, User-Agent header and the 10-second timeout (Backend/main.py:29-36). Its outcome is an input, and so is the text of the exception it raises.
- The FastAPI app and CORS setup (Backend/main.py:13-21), and the request model.
- BeautifulSoup parsing and the removal of `script` and `style` tags (Backend/main.py:42-44): foreign library work on the parse tree. Its results are the fields of `Document`.
- The TF-IDF vectorizer with stop words and `max_features=20` (Backend/main.py:61-64): a foreign library call, taken as a function from text to names and scores, or to `None` where it raises (an empty vocabulary). Which texts make it raise is not modelled.
- The body of the server's generic 500 for an uncaught exception is a plain-text "Internal Server Error", not a JSON `detail`; the model gives it as an `HttpError` with that text.
- `float(round(s, 4))` (Backend/main.py:67): float rounding, taken as a function parameter.
- ResponseNonIncreasing: assumes the rounding is monotone, which the real operation is. The model has no definition of it to prove that from.
