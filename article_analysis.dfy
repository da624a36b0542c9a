/** The `/analyze` endpoint of the backend, with the HTTP fetch, the HTML
    parser and the TF-IDF vectorizer taken as given inputs: what the fetch
    returned, a function from the page to its parsed `Document`, a function
    from the selected text to the vectorizer's feature names and scores, and
    the rounding of a score to four decimals.

    What is modelled is the logic between those calls: the classification
    of fetch failures, the chain of fallbacks that picks the text, the strip
    and the empty-text rejection, and the stable descending ranking of the
    (feature, score) pairs that becomes the response. */
module ArticleAnalysis {

  import opened Keywords

  datatype Option<T> = None | Some(value: T)

  /** An `HTTPException`: status code and detail text. */
  datatype HttpError = HttpError(status: nat, detail: string)

  datatype Result<T> = Ok(value: T) | Err(error: HttpError)

  /** What the fetch produced: a response (its status code, its text, and the
      message `raise_for_status` would raise for it), or the message of the
      exception the request itself raised. */
  datatype FetchOutcome =
    | Response(status: int, text: string, statusMessage: string)
    | Raised(message: string)

  /** The parts of the parsed page the endpoint reads: the text of the first
      `<article>` element if there is one, the text of every `<p>` element in
      document order, and the text of the whole page. */
  datatype Document = Document(article: Option<string>, paragraphs: seq<string>, wholeText: string)

  /** The vectorizer's output: feature names and their scores. */
  datatype Features = Features(names: seq<string>, scores: seq<real>)

  /** One (feature, score) pair. */
  datatype Scored = Scored(word: string, score: real)

  const FetchFailedStatus: nat := 500
  const NoTextStatus: nat := 422
  const FetchFailedPrefix: string := "Failed to fetch article: "
  const NoTextDetail: string := "No text found in the article"
  /** What the server answers when an exception escapes the endpoint. */
  const UnhandledStatus: nat := 500
  const UnhandledDetail: string := "Internal Server Error"

  // ---------------------------------------------------------------------
  // Fetching

  /** `raise_for_status` raises for client (4xx) and server (5xx) errors. */
  predicate IsErrorStatus(status: int)
  {
    400 <= status < 600
  }

  /** The page text, or the 500 error that any fetch failure becomes. */
  function FetchText(f: FetchOutcome): (r: Result<string>)
    ensures r.Err? <==> f.Raised? || IsErrorStatus(f.status)
    ensures r.Err? ==> r.error.status == FetchFailedStatus && FetchFailedPrefix <= r.error.detail
    ensures f.Raised? ==> r == Err(HttpError(FetchFailedStatus, FetchFailedPrefix + f.message))
    ensures f.Response? && IsErrorStatus(f.status) ==>
              r == Err(HttpError(FetchFailedStatus, FetchFailedPrefix + f.statusMessage))
    ensures r.Ok? ==> r.value == f.text
  {
    match f
    case Raised(message) => Err(HttpError(FetchFailedStatus, FetchFailedPrefix + message))
    case Response(status, text, message) =>
      if IsErrorStatus(status) then Err(HttpError(FetchFailedStatus, FetchFailedPrefix + message))
      else Ok(text)
  }

  // ---------------------------------------------------------------------
  // Text selection

  /** Python's `" ".join(ps)`. */
  function JoinWithSpace(ps: seq<string>): (r: string)
    ensures r == "" <==> |ps| == 0 || (|ps| == 1 && ps[0] == "")
  {
    if |ps| == 0 then ""
    else if |ps| == 1 then ps[0]
    else ps[0] + " " + JoinWithSpace(ps[1..])
  }

  /** The candidate texts in the order the endpoint tries them; a missing
      `<article>` contributes the initial empty text. */
  function Candidates(doc: Document): (cs: seq<string>)
    ensures |cs| == 3
  {
    [if doc.article.Some? then doc.article.value else "",
     JoinWithSpace(doc.paragraphs),
     doc.wholeText]
  }

  /** The first non-empty text of `cs`, or the empty text if there is none. */
  function FirstNonEmpty(cs: seq<string>): (r: string)
    ensures r == "" <==> forall i | 0 <= i < |cs| :: cs[i] == ""
    ensures r != "" ==> exists k | 0 <= k < |cs| :: cs[k] == r && forall i | 0 <= i < k :: cs[i] == ""
  {
    if cs == [] then ""
    else if cs[0] != "" then cs[0]
    else FirstNonEmpty(cs[1..])
  }

  /** The successive reassignments of `text`: the article text, replaced by
      the joined paragraphs while still empty, replaced by the whole text
      while still empty. */
  method SelectText(doc: Document) returns (text: string)
    ensures text == FirstNonEmpty(Candidates(doc))
  {
    text := "";
    if doc.article.Some? {
      text := doc.article.value;
    }
    if text == "" {
      text := JoinWithSpace(doc.paragraphs);
    }
    if text == "" {
      text := doc.wholeText;
    }
    FirstNonEmptyOfThree(Candidates(doc));
  }

  lemma FirstNonEmptyOfThree(cs: seq<string>)
    requires |cs| == 3
    ensures FirstNonEmpty(cs) == if cs[0] != "" then cs[0] else if cs[1] != "" then cs[1] else cs[2]
  {
    assert cs[1..][1..] == [cs[2]];
    assert [cs[2]][1..] == [];
  }

  // ---------------------------------------------------------------------
  // Python's str.strip()

  /** The characters `str.isspace` accepts. */
  predicate IsSpace(c: char)
  {
    ('\t' <= c <= '\r') || ('\U{1C}' <= c <= ' ') || c == '\U{85}' || c == '\U{A0}'
    || c == '\U{1680}' || ('\U{2000}' <= c <= '\U{200A}') || c == '\U{2028}' || c == '\U{2029}'
    || c == '\U{202F}' || c == '\U{205F}' || c == '\U{3000}'
  }

  predicate AllSpace(s: string)
  {
    forall i | 0 <= i < |s| :: IsSpace(s[i])
  }

  /** `s` without its leading whitespace. */
  function TrimStart(s: string): (r: string)
    ensures |r| <= |s| && r == s[|s| - |r|..]
    ensures AllSpace(s[..|s| - |r|])
    ensures r != "" ==> !IsSpace(r[0])
  {
    if |s| > 0 && IsSpace(s[0]) then
      var r := TrimStart(s[1..]);
      assert s[..|s| - |r|] == [s[0]] + s[1..][..|s| - 1 - |r|];
      r
    else s
  }

  /** `s` without its trailing whitespace. */
  function TrimEnd(s: string): (r: string)
    ensures |r| <= |s| && r == s[..|r|]
    ensures AllSpace(s[|r|..])
    ensures r != "" ==> !IsSpace(r[|r| - 1])
  {
    if |s| > 0 && IsSpace(s[|s| - 1]) then
      var r := TrimEnd(s[..|s| - 1]);
      assert s[|r|..] == s[..|s| - 1][|r|..] + [s[|s| - 1]];
      r
    else s
  }

  /** `s.strip()`: the part of `s` between its leading and its trailing
      whitespace. A non-empty result starts and ends with non-whitespace. */
  function Strip(s: string): (r: string)
    ensures r != "" ==> !IsSpace(r[0]) && !IsSpace(r[|r| - 1])
  {
    var t := TrimStart(s);
    assert TrimEnd(t) != "" ==> TrimEnd(t)[0] == t[0];
    TrimEnd(t)
  }

  /** The stripped text is empty exactly when the text is all whitespace. */
  lemma StripEmptyIff(s: string)
    ensures Strip(s) == "" <==> AllSpace(s)
  {
    var t := TrimStart(s);
    var a := |s| - |t|;
    assert t == s[a..];
    assert t != "" ==> !AllSpace(s) by {
      if t != "" { assert t[0] == s[a]; }
    }
    if Strip(s) == "" {
      assert t[0..] == t;
      assert t == "";
      assert s[..a] == s;
    }
  }

  /** Where the stripped text starts in `s`: `Strip` removes whitespace at
      the two ends and nothing else. */
  ghost function StripOffset(s: string): (a: nat)
    ensures a + |Strip(s)| <= |s|
    ensures s[a..a + |Strip(s)|] == Strip(s)
    ensures AllSpace(s[..a]) && AllSpace(s[a + |Strip(s)|..])
  {
    var t := TrimStart(s);
    SuffixSlices(s, |s| - |t|, |TrimEnd(t)|);
    |s| - |t|
  }

  lemma SuffixSlices(s: string, a: nat, k: nat)
    requires a + k <= |s|
    ensures s[a..][..k] == s[a..a + k] && s[a..][k..] == s[a + k..]
  {
  }

  // ---------------------------------------------------------------------
  // Ranking

  /** Python's `zip(names, scores)`: pairs up to the shorter of the two. */
  function Zip(names: seq<string>, scores: seq<real>): (z: seq<Scored>)
    ensures |z| == if |names| <= |scores| then |names| else |scores|
    ensures forall i | 0 <= i < |z| :: z[i] == Scored(names[i], scores[i])
  {
    if names == [] || scores == [] then []
    else [Scored(names[0], scores[0])] + Zip(names[1..], scores[1..])
  }

  /** Non-increasing by score. */
  predicate NonIncreasing(s: seq<Scored>)
  {
    forall i, j | 0 <= i < j < |s| :: s[i].score >= s[j].score
  }

  /** The pairs of `s` whose score is `v`, in their order in `s`. */
  function WithScore(s: seq<Scored>, v: real): seq<Scored>
  {
    if s == [] then []
    else (if s[0].score == v then [s[0]] else []) + WithScore(s[1..], v)
  }

  /** Puts `p` in front of the first pair whose score does not exceed its
      own, so that `p` stays ahead of equal scores that followed it. */
  function InsertByScore(p: Scored, s: seq<Scored>): (r: seq<Scored>)
    ensures |r| == |s| + 1
  {
    if s == [] || s[0].score <= p.score then [p] + s
    else [s[0]] + InsertByScore(p, s[1..])
  }

  /** `sorted(pairs, key=score, reverse=True)`: a stable sort by descending
      score, written as an insertion sort. */
  function RankByScore(s: seq<Scored>): (r: seq<Scored>)
    ensures |r| == |s|
  {
    if s == [] then [] else InsertByScore(s[0], RankByScore(s[1..]))
  }

  /** The list comprehension that builds the response. */
  function Shape(pairs: seq<Scored>, round: real -> real): (out: seq<Keyword>)
    ensures |out| == |pairs|
  {
    seq(|pairs|, i requires 0 <= i < |pairs| => Keyword(pairs[i].word, round(pairs[i].score)))
  }

  /** The response for the vectorizer's output: one entry per zipped pair. */
  function Respond(f: Features, round: real -> real): (r: seq<Keyword>)
    ensures |r| == if |f.names| <= |f.scores| then |f.names| else |f.scores|
  {
    Shape(RankByScore(Zip(f.names, f.scores)), round)
  }

  // ---------------------------------------------------------------------
  // The endpoint

  /** `analyze_article`, with the fetch outcome, the parser, the vectorizer
      and the rounding as inputs. A failed fetch never reaches the parser; an
      all-whitespace selection never reaches the vectorizer, which otherwise
      sees the stripped text. The vectorizer answers `None` where it raises
      (a text without any usable term); that exception is not caught, so the
      server answers with its generic 500. */
  method AnalyzeArticle(fetched: FetchOutcome, parse: string -> Document,
                        extract: string -> Option<Features>, round: real -> real)
    returns (r: Result<seq<Keyword>>)
    ensures fetched.Raised? ==> r == Err(HttpError(FetchFailedStatus, FetchFailedPrefix + fetched.message))
    ensures fetched.Response? && IsErrorStatus(fetched.status) ==>
              r == Err(HttpError(FetchFailedStatus, FetchFailedPrefix + fetched.statusMessage))
    ensures fetched.Response? && !IsErrorStatus(fetched.status) ==>
              var text := Strip(FirstNonEmpty(Candidates(parse(fetched.text))));
              r == if text == "" then Err(HttpError(NoTextStatus, NoTextDetail))
                   else if extract(text).None? then Err(HttpError(UnhandledStatus, UnhandledDetail))
                   else Ok(Respond(extract(text).value, round))
  {
    var page := FetchText(fetched);
    if page.Err? {
      return Err(page.error);
    }
    var doc := parse(page.value);
    var text := SelectText(doc);
    text := Strip(text);
    if text == "" {
      return Err(HttpError(NoTextStatus, NoTextDetail));
    }
    var extracted := extract(text);
    if extracted.None? {
      return Err(HttpError(UnhandledStatus, UnhandledDetail));
    }
    var features := extracted.value;
    var pairs := RankByScore(Zip(features.names, features.scores));
    r := Ok(Shape(pairs, round));
  }

  // ---------------------------------------------------------------------
  // Properties of the text selection

  /** The article text wins whenever it is non-empty, even if it is only
      whitespace: the emptiness test comes before the strip, so such a page
      is rejected with 422 whatever its paragraphs say. */
  lemma WhitespaceArticleShadowsParagraphs(doc: Document)
    requires doc.article.Some? && doc.article.value != "" && AllSpace(doc.article.value)
    ensures FirstNonEmpty(Candidates(doc)) == doc.article.value
    ensures Strip(FirstNonEmpty(Candidates(doc))) == ""
  {
    StripEmptyIff(doc.article.value);
  }

  /** Without an article, two or more `<p>` elements keep the whole-page text
      out even when they are all empty. */
  lemma EmptyParagraphsShadowWholeText(doc: Document)
    requires doc.article.None? && |doc.paragraphs| >= 2
    ensures FirstNonEmpty(Candidates(doc)) == JoinWithSpace(doc.paragraphs)
  {
  }

  /** Stripping twice is stripping once. */
  lemma StripIdempotent(s: string)
    ensures Strip(Strip(s)) == Strip(s)
  {
    var r := Strip(s);
    if r != "" {
      assert !AllSpace(r);
      var t := TrimStart(r);
      assert t == r;
      var u := TrimEnd(t);
      assert u == r;
    }
  }

  // ---------------------------------------------------------------------
  // Properties of the ranking

  lemma {:induction false} InsertPermutation(p: Scored, s: seq<Scored>)
    ensures multiset(InsertByScore(p, s)) == multiset(s) + multiset{p}
  {
    if s != [] && s[0].score > p.score {
      InsertPermutation(p, s[1..]);
      assert s == [s[0]] + s[1..];
    }
  }

  lemma {:induction false} InsertNonIncreasing(p: Scored, s: seq<Scored>)
    requires NonIncreasing(s)
    ensures NonIncreasing(InsertByScore(p, s))
  {
    if s != [] && s[0].score > p.score {
      var rest := InsertByScore(p, s[1..]);
      InsertNonIncreasing(p, s[1..]);
      InsertPermutation(p, s[1..]);
      forall j | 0 <= j < |rest| ensures s[0].score >= rest[j].score {
        assert rest[j] in multiset(s[1..]) + multiset{p};
        if rest[j] != p {
          assert rest[j] in s[1..];
        }
      }
    }
  }

  lemma WithScoreCons(x: Scored, s: seq<Scored>, v: real)
    ensures WithScore([x] + s, v) == (if x.score == v then [x] else []) + WithScore(s, v)
  {
    assert ([x] + s)[1..] == s;
  }

  lemma {:induction false} InsertWithScore(p: Scored, s: seq<Scored>, v: real)
    ensures WithScore(InsertByScore(p, s), v) == (if p.score == v then [p] else []) + WithScore(s, v)
  {
    if s == [] || s[0].score <= p.score {
      WithScoreCons(p, s, v);
    } else {
      var rest := InsertByScore(p, s[1..]);
      InsertWithScore(p, s[1..], v);
      WithScoreCons(s[0], rest, v);
      WithScoreCons(s[0], s[1..], v);
      assert s == [s[0]] + s[1..];
      assert !(s[0].score == v && p.score == v);
    }
  }

  /** The ranking is sorted by score, highest first. */
  lemma {:induction false} RankNonIncreasing(s: seq<Scored>)
    ensures NonIncreasing(RankByScore(s))
  {
    if s != [] {
      RankNonIncreasing(s[1..]);
      InsertNonIncreasing(s[0], RankByScore(s[1..]));
    }
  }

  /** The ranking is a permutation of its input. */
  lemma {:induction false} RankPermutation(s: seq<Scored>)
    ensures multiset(RankByScore(s)) == multiset(s)
  {
    if s != [] {
      RankPermutation(s[1..]);
      InsertPermutation(s[0], RankByScore(s[1..]));
      assert s == [s[0]] + s[1..];
    }
  }

  /** The ranking is stable: pairs with equal scores keep their input order. */
  lemma {:induction false} RankStable(s: seq<Scored>, v: real)
    ensures WithScore(RankByScore(s), v) == WithScore(s, v)
  {
    if s != [] {
      RankStable(s[1..], v);
      InsertWithScore(s[0], RankByScore(s[1..]), v);
    }
  }

  lemma ShapeCons(x: Scored, s: seq<Scored>, round: real -> real)
    ensures Shape([x] + s, round) == [Keyword(x.word, round(x.score))] + Shape(s, round)
  {
  }

  lemma {:induction false} ShapeInsert(p: Scored, s: seq<Scored>, round: real -> real)
    ensures multiset(Shape(InsertByScore(p, s), round))
         == multiset(Shape(s, round)) + multiset{Keyword(p.word, round(p.score))}
  {
    var k := Keyword(p.word, round(p.score));
    if s == [] || s[0].score <= p.score {
      ShapeCons(p, s, round);
    } else {
      var h := Keyword(s[0].word, round(s[0].score));
      ShapeInsert(p, s[1..], round);
      ShapeCons(s[0], InsertByScore(p, s[1..]), round);
      ShapeCons(s[0], s[1..], round);
      assert s == [s[0]] + s[1..];
    }
  }

  lemma {:induction false} ShapeRank(s: seq<Scored>, round: real -> real)
    ensures multiset(Shape(RankByScore(s), round)) == multiset(Shape(s, round))
  {
    if s != [] {
      ShapeRank(s[1..], round);
      ShapeInsert(s[0], RankByScore(s[1..]), round);
      ShapeCons(s[0], s[1..], round);
      assert s == [s[0]] + s[1..];
    }
  }

  // ---------------------------------------------------------------------
  // Properties of the response

  /** One entry per feature, each word with its own (rounded) score: the
      response is a permutation of the zipped pairs. */
  lemma ResponsePermutation(f: Features, round: real -> real)
    requires |f.names| == |f.scores|
    ensures |Respond(f, round)| == |f.names|
    ensures multiset(Respond(f, round)) == multiset(Shape(Zip(f.names, f.scores), round))
    ensures forall i | 0 <= i < |f.names| :: Keyword(f.names[i], round(f.scores[i])) in Respond(f, round)
  {
    var z := Zip(f.names, f.scores);
    RankPermutation(z);
    ShapeRank(z, round);
    assert |RankByScore(z)| == |multiset(RankByScore(z))|;
    forall i | 0 <= i < |f.names| ensures Keyword(f.names[i], round(f.scores[i])) in Respond(f, round) {
      assert Shape(z, round)[i] == Keyword(f.names[i], round(f.scores[i]));
      assert Keyword(f.names[i], round(f.scores[i])) in multiset(Shape(z, round));
    }
  }

  /** With a monotone rounding, the response weights never increase. */
  lemma ResponseNonIncreasing(f: Features, round: real -> real)
    requires forall a, b | a <= b :: round(a) <= round(b)
    ensures forall i, j | 0 <= i < j < |Respond(f, round)| ::
              Respond(f, round)[i].weight >= Respond(f, round)[j].weight
  {
    RankNonIncreasing(Zip(f.names, f.scores));
  }
}
