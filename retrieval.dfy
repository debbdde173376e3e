/**
 * The lexical long-term memory search of `memory_manager.py` (`_search_longterm_jsonl` and
 * `search_longterm`; the src/memora and engine copies hold the same code). Records are the
 * lines of `longterm/memory.jsonl`; a record matches when its lower-cased text contains at
 * least one query token; matches are ranked by how many tokens they contain.
 */
module Retrieval {
  import opened Wrappers
  import opened Text
  import opened Json

  /** `(score, text)` as appended to `scored`. */
  datatype Scored = Scored(score: nat, text: string)

  /** Raised out of the scan: a line that parses as JSON but not as an object has no `.get`. */
  datatype SearchError = NotAnObject(line: string)

  const NoMatchesText: string := "(no relevant long-term memory found)"
  const DefaultLimit: int := 4

  // ---------------------------------------------------------------- tokens and score

  function LongWords(words: seq<string>): (r: seq<string>)
    ensures forall t | t in r :: t in words && |t| > 1
  {
    if words == [] then []
    else if |words[0]| > 1 then [words[0]] + LongWords(words[1..])
    else LongWords(words[1..])
  }

  /** `[t for t in user_input.lower().split() if len(t) > 1]`. */
  function Tokens(query: string): seq<string> {
    LongWords(Split(Lower(query)))
  }

  /**
   * Every token is a whitespace-free word of the lower-cased query of at least two characters,
   * and there are no tokens exactly when every word of the query is a single character.
   */
  lemma {:induction false} TokensFacts(query: string)
    ensures forall t | t in Tokens(query) :: 2 <= |t| && t in Split(Lower(query)) && forall k | 0 <= k < |t| :: !IsSpace(t[k])
    ensures Tokens(query) == [] <==> forall w | w in Split(Lower(query)) :: |w| <= 1
  {
    LongWordsEmpty(Split(Lower(query)));
  }

  lemma {:induction false} LongWordsEmpty(words: seq<string>)
    ensures LongWords(words) == [] <==> forall w | w in words :: |w| <= 1
  {
    if words != [] {
      LongWordsEmpty(words[1..]);
      assert forall w | w in words[1..] :: w in words;
      if |words[0]| <= 1 {
        assert forall w | w in words :: w == words[0] || w in words[1..];
      }
    }
  }

  /** `sum(1 for token in tokens if token in lowered)`: tokens are counted, not occurrences. */
  function Score(tokens: seq<string>, lowered: string): nat {
    if tokens == [] then 0
    else (if Contains(lowered, tokens[0]) then 1 else 0) + Score(tokens[1..], lowered)
  }

  /** The tokens of `tokens` (with repetitions) that occur in `lowered`, in order. */
  function ContainedTokens(tokens: seq<string>, lowered: string): (r: seq<string>)
    ensures forall t | t in r :: t in tokens && Contains(lowered, t)
  {
    if tokens == [] then []
    else if Contains(lowered, tokens[0]) then [tokens[0]] + ContainedTokens(tokens[1..], lowered)
    else ContainedTokens(tokens[1..], lowered)
  }

  /**
   * The score is the number of query-token entries (duplicates included) contained in the text,
   * so it is at most the number of tokens, and it is positive exactly when some token occurs.
   */
  lemma {:induction false} ScoreCounts(tokens: seq<string>, lowered: string)
    ensures Score(tokens, lowered) == |ContainedTokens(tokens, lowered)|
    ensures Score(tokens, lowered) <= |tokens|
    ensures Score(tokens, lowered) > 0 <==> exists t | t in tokens :: Contains(lowered, t)
  {
    if tokens != [] {
      ScoreCounts(tokens[1..], lowered);
      if !Contains(lowered, tokens[0]) && Score(tokens, lowered) == 0 {
        forall t | t in tokens ensures !Contains(lowered, t) {
          if t != tokens[0] {
            assert t in tokens[1..];
          }
        }
      }
    }
  }

  // ---------------------------------------------------------------- one line of the log

  /** `str(value)`: strings as they are; other JSON values through Python's rendering `render`. */
  function PyStr(v: JsonValue, render: JsonValue -> string): string {
    if v.JString? then v.s else render(v)
  }

  /**
   * What one line contributes: Ok(None) for a blank or unparseable line, Ok(Some(text)) for an
   * object (`str(row.get("text", ""))`), an error for JSON that is not an object.
   */
  function LineText(line: string, decode: string -> Option<JsonValue>, render: JsonValue -> string): Result<Option<string>, SearchError> {
    var stripped := Strip(line);
    if stripped == "" then Ok(None)
    else match decode(stripped)
      case None => Ok(None)
      case Some(JObject(fields)) => Ok(Some(if "text" in fields then PyStr(fields["text"], render) else ""))
      case Some(_) => Err(NotAnObject(stripped))
  }

  /** The `scored` list after the scan of `lines`, in file order, or the error that stops it. */
  function ScoredLines(lines: seq<string>, tokens: seq<string>, decode: string -> Option<JsonValue>, render: JsonValue -> string): Result<seq<Scored>, SearchError> {
    if lines == [] then Ok([])
    else
      var before := ScoredLines(lines[..|lines| - 1], tokens, decode, render);
      if before.Err? then before
      else match LineText(lines[|lines| - 1], decode, render)
        case Err(e) => Err(e)
        case Ok(None) => before
        case Ok(Some(text)) =>
          var score := Score(tokens, Lower(text));
          if score > 0 then Ok(before.value + [Scored(score, text)]) else before
  }

  /** Every scored record has a positive score, the score of its own text. */
  lemma {:induction false} ScoredLinesPositive(lines: seq<string>, tokens: seq<string>, decode: string -> Option<JsonValue>, render: JsonValue -> string)
    ensures var r := ScoredLines(lines, tokens, decode, render);
      r.Ok? ==> forall x | x in r.value :: x.score > 0 && x.score == Score(tokens, Lower(x.text))
  {
    if lines != [] {
      ScoredLinesPositive(lines[..|lines| - 1], tokens, decode, render);
    }
  }

  /** The first non-object line ends the scan: nothing after it is looked at. */
  lemma {:induction false} ErrorStopsScan(lines: seq<string>, k: nat, tokens: seq<string>, decode: string -> Option<JsonValue>, render: JsonValue -> string)
    requires k <= |lines|
    requires ScoredLines(lines[..k], tokens, decode, render).Err?
    ensures ScoredLines(lines, tokens, decode, render) == ScoredLines(lines[..k], tokens, decode, render)
    decreases |lines| - k
  {
    if k < |lines| {
      assert lines[..k + 1][..k] == lines[..k];
      ErrorStopsScan(lines, k + 1, tokens, decode, render);
    } else {
      assert lines[..k] == lines;
    }
  }

  /** A blank or unparseable line anywhere in the log changes nothing: the scan goes on past it. */
  lemma {:induction false} SkippedLineIsInvisible(before: seq<string>, line: string, after: seq<string>, tokens: seq<string>, decode: string -> Option<JsonValue>, render: JsonValue -> string)
    requires Blank(line) || decode(Strip(line)) == None
    ensures ScoredLines(before + [line] + after, tokens, decode, render) == ScoredLines(before + after, tokens, decode, render)
  {
    if after == [] {
      StripEmptyIffBlank(line);
      assert LineText(line, decode, render) == Ok(None);
      assert (before + [line] + after)[..|before|] == before;
      assert before + after == before;
    } else {
      var n := |after|;
      var last := after[n - 1];
      SkippedLineIsInvisible(before, line, after[..n - 1], tokens, decode, render);
      assert before + [line] + after == (before + [line] + after[..n - 1]) + [last];
      assert before + after == (before + after[..n - 1]) + [last];
      ScanSnocCongruent(before + [line] + after[..n - 1], before + after[..n - 1], last, tokens, decode, render);
    }
  }

  /** Two prefixes that scan alike still scan alike after the same next line. */
  lemma ScanSnocCongruent(a: seq<string>, b: seq<string>, line: string, tokens: seq<string>, decode: string -> Option<JsonValue>, render: JsonValue -> string)
    requires ScoredLines(a, tokens, decode, render) == ScoredLines(b, tokens, decode, render)
    ensures ScoredLines(a + [line], tokens, decode, render) == ScoredLines(b + [line], tokens, decode, render)
  {
    assert (a + [line])[..|a|] == a && (a + [line])[|a|] == line;
    assert (b + [line])[..|b|] == b && (b + [line])[|b|] == line;
  }

  /** The record one line adds to `scored`: one for an object whose text holds a token, else none. */
  function LineRecord(line: string, tokens: seq<string>, decode: string -> Option<JsonValue>, render: JsonValue -> string): seq<Scored> {
    match LineText(line, decode, render)
    case Ok(Some(text)) =>
      var score := Score(tokens, Lower(text));
      if score > 0 then [Scored(score, text)] else []
    case _ => []
  }

  /** The matching records of the log read front to back: the filter the scan is meant to be. */
  function Matching(lines: seq<string>, tokens: seq<string>, decode: string -> Option<JsonValue>, render: JsonValue -> string): seq<Scored> {
    if lines == [] then [] else LineRecord(lines[0], tokens, decode, render) + Matching(lines[1..], tokens, decode, render)
  }

  /** No line of the log is JSON other than an object. */
  predicate Scannable(lines: seq<string>, decode: string -> Option<JsonValue>, render: JsonValue -> string) {
    forall k | 0 <= k < |lines| :: LineText(lines[k], decode, render).Ok?
  }

  lemma {:induction false} MatchingSnoc(lines: seq<string>, line: string, tokens: seq<string>, decode: string -> Option<JsonValue>, render: JsonValue -> string)
    ensures Matching(lines + [line], tokens, decode, render) == Matching(lines, tokens, decode, render) + LineRecord(line, tokens, decode, render)
  {
    if lines == [] {
      assert [line][1..] == [];
    } else {
      assert (lines + [line])[0] == lines[0];
      assert (lines + [line])[1..] == lines[1..] + [line];
      MatchingSnoc(lines[1..], line, tokens, decode, render);
    }
  }

  /**
   * The scan succeeds exactly when no line is JSON other than an object, and then `scored` is
   * the matching records in file order: every object line whose text holds a token, and no other.
   */
  lemma {:induction false} ScoredLinesIsFilter(lines: seq<string>, tokens: seq<string>, decode: string -> Option<JsonValue>, render: JsonValue -> string)
    ensures var r := ScoredLines(lines, tokens, decode, render);
      && (r.Ok? <==> Scannable(lines, decode, render))
      && (r.Ok? ==> r.value == Matching(lines, tokens, decode, render))
  {
    if lines != [] {
      var n := |lines|;
      var init := lines[..n - 1];
      var last := lines[n - 1];
      ScoredLinesIsFilter(init, tokens, decode, render);
      ScannableSnoc(lines, decode, render);
      assert lines == init + [last];
      MatchingSnoc(init, last, tokens, decode, render);
      var before := ScoredLines(init, tokens, decode, render);
      if before.Ok? {
        match LineText(last, decode, render) {
          case Err(e) =>
          case Ok(None) =>
            assert LineRecord(last, tokens, decode, render) == [];
          case Ok(Some(text)) =>
            var score := Score(tokens, Lower(text));
            assert LineRecord(last, tokens, decode, render) == if score > 0 then [Scored(score, text)] else [];
        }
      }
    }
  }

  lemma ScannableSnoc(lines: seq<string>, decode: string -> Option<JsonValue>, render: JsonValue -> string)
    requires lines != []
    ensures Scannable(lines, decode, render) <==>
      Scannable(lines[..|lines| - 1], decode, render) && LineText(lines[|lines| - 1], decode, render).Ok?
  {
    var init := lines[..|lines| - 1];
    assert forall k | 0 <= k < |init| :: lines[k] == init[k];
    if !Scannable(init, decode, render) {
      var k :| 0 <= k < |init| && !LineText(init[k], decode, render).Ok?;
      assert !LineText(lines[k], decode, render).Ok?;
    }
  }

  lemma {:induction false} MatchingHas(lines: seq<string>, k: nat, tokens: seq<string>, decode: string -> Option<JsonValue>, render: JsonValue -> string)
    requires k < |lines|
    ensures forall x | x in LineRecord(lines[k], tokens, decode, render) :: x in Matching(lines, tokens, decode, render)
  {
    if k > 0 {
      MatchingHas(lines[1..], k - 1, tokens, decode, render);
      assert lines[1..][k - 1] == lines[k];
    }
  }

  /**
   * Nothing that matches is dropped: an object line whose text holds a query token is in
   * `scored`, with its score, whenever the scan succeeds.
   */
  lemma ScoredLinesComplete(lines: seq<string>, k: nat, text: string, tokens: seq<string>, decode: string -> Option<JsonValue>, render: JsonValue -> string)
    requires k < |lines| && LineText(lines[k], decode, render) == Ok(Some(text))
    requires ScoredLines(lines, tokens, decode, render).Ok?
    ensures Score(tokens, Lower(text)) > 0 ==> Scored(Score(tokens, Lower(text)), text) in ScoredLines(lines, tokens, decode, render).value
  {
    ScoredLinesIsFilter(lines, tokens, decode, render);
    MatchingHas(lines, k, tokens, decode, render);
  }

  // ---------------------------------------------------------------- ranking

  /** Stable insertion of an earlier record in front of the later, already ranked ones. */
  function Insert(x: Scored, ranked: seq<Scored>): (r: seq<Scored>)
    ensures |r| == |ranked| + 1
  {
    if ranked == [] || ranked[0].score <= x.score then [x] + ranked
    else [ranked[0]] + Insert(x, ranked[1..])
  }

  /** `scored.sort(key=lambda x: x[0], reverse=True)`: by descending score, ties in file order. */
  function SortDesc(s: seq<Scored>): (r: seq<Scored>)
    ensures |r| == |s|
  {
    if s == [] then [] else Insert(s[0], SortDesc(s[1..]))
  }

  predicate Descending(s: seq<Scored>) {
    forall i, j | 0 <= i < j < |s| :: s[i].score >= s[j].score
  }

  /** The records of score `k`, in order. */
  function WithScore(s: seq<Scored>, k: nat): seq<Scored> {
    if s == [] then [] else (if s[0].score == k then [s[0]] else []) + WithScore(s[1..], k)
  }

  lemma InsertFacts(x: Scored, ranked: seq<Scored>)
    requires Descending(ranked)
    ensures Descending(Insert(x, ranked))
    ensures multiset(Insert(x, ranked)) == multiset{x} + multiset(ranked)
    ensures forall y | y in Insert(x, ranked) :: y == x || y in ranked
  {
    InsertMultiset(x, ranked);
    InsertDescending(x, ranked);
    forall y | y in Insert(x, ranked) ensures y == x || y in ranked {
      assert y in multiset(Insert(x, ranked));
    }
  }

  lemma {:induction false} InsertMultiset(x: Scored, ranked: seq<Scored>)
    ensures multiset(Insert(x, ranked)) == multiset{x} + multiset(ranked)
  {
    if ranked != [] && ranked[0].score > x.score {
      InsertMultiset(x, ranked[1..]);
      assert ranked == [ranked[0]] + ranked[1..];
    }
  }

  /** A record no lower than every record of a descending list can go in front of it. */
  lemma DescendingCons(h: Scored, rest: seq<Scored>)
    requires Descending(rest)
    requires forall y | y in rest :: y.score <= h.score
    ensures Descending([h] + rest)
  {
    var r := [h] + rest;
    forall i, j | 0 <= i < j < |r| ensures r[i].score >= r[j].score {
      assert r[j] == rest[j - 1];
      if i > 0 {
        assert r[i] == rest[i - 1];
      } else {
        assert rest[j - 1] in rest;
      }
    }
  }

  lemma {:induction false} InsertDescending(x: Scored, ranked: seq<Scored>)
    requires Descending(ranked)
    ensures Descending(Insert(x, ranked))
  {
    if ranked != [] && ranked[0].score > x.score {
      var tail := ranked[1..];
      var rest := Insert(x, tail);
      assert Descending(tail) by {
        forall i, j | 0 <= i < j < |tail| ensures tail[i].score >= tail[j].score {
          assert tail[i] == ranked[i + 1] && tail[j] == ranked[j + 1];
        }
      }
      InsertDescending(x, tail);
      InsertMultiset(x, tail);
      forall y | y in rest ensures y.score <= ranked[0].score {
        assert y in multiset(rest);
        if y != x {
          assert y in multiset(tail);
          var k :| 0 <= k < |tail| && tail[k] == y;
          assert ranked[k + 1] == y;
        }
      }
      DescendingCons(ranked[0], rest);
    } else {
      forall y | y in ranked ensures y.score <= x.score {
        var k :| 0 <= k < |ranked| && ranked[k] == y;
        assert ranked[0].score >= ranked[k].score;
      }
      DescendingCons(x, ranked);
    }
  }

  lemma {:induction false} InsertWithScore(x: Scored, ranked: seq<Scored>, k: nat)
    ensures WithScore(Insert(x, ranked), k) == (if x.score == k then [x] else []) + WithScore(ranked, k)
  {
    if ranked != [] && ranked[0].score > x.score {
      var r0 := ranked[0];
      var ins := Insert(x, ranked[1..]);
      InsertWithScore(x, ranked[1..], k);
      assert Insert(x, ranked) == [r0] + ins;
      assert ([r0] + ins)[0] == r0 && ([r0] + ins)[1..] == ins;
      assert WithScore([r0] + ins, k) == (if r0.score == k then [r0] else []) + WithScore(ins, k);
      assert WithScore(ranked, k) == (if r0.score == k then [r0] else []) + WithScore(ranked[1..], k);
      if x.score == k {
        assert r0.score != k;
      }
    } else {
      assert ([x] + ranked)[0] == x && ([x] + ranked)[1..] == ranked;
    }
  }

  /**
   * The ranking is sorted by non-increasing score, is a permutation of the scored records, and
   * is stable: the records of any one score keep their file order.
   */
  lemma {:induction false} SortDescFacts(s: seq<Scored>)
    ensures Descending(SortDesc(s))
    ensures multiset(SortDesc(s)) == multiset(s)
    ensures forall k: nat :: WithScore(SortDesc(s), k) == WithScore(s, k)
  {
    if s != [] {
      SortDescFacts(s[1..]);
      InsertFacts(s[0], SortDesc(s[1..]));
      assert s == [s[0]] + s[1..];
      forall k: nat ensures WithScore(SortDesc(s), k) == WithScore(s, k) {
        InsertWithScore(s[0], SortDesc(s[1..]), k);
      }
    }
  }

  function Texts(s: seq<Scored>): (r: seq<string>)
    ensures |r| == |s| && forall i | 0 <= i < |s| :: r[i] == s[i].text
  {
    seq(|s|, i requires 0 <= i < |s| => s[i].text)
  }

  /** `[text for _, text in scored[:limit]]` after the sort. */
  function Ranked(scored: seq<Scored>, limit: int): seq<Scored> {
    PyTake(SortDesc(scored), limit)
  }

  /**
   * The kept records are the best ones: as many as Python's `[:limit]` leaves (all of them when
   * the limit covers the list), in non-increasing score, and none scores below one cut off.
   */
  lemma TopRanked(scored: seq<Scored>, limit: int)
    ensures var kept := Ranked(scored, limit);
      var all := SortDesc(scored);
      && |kept| == PyBound(|scored|, limit)
      && (limit >= 0 ==> |kept| <= limit)
      && (limit >= |scored| ==> multiset(kept) == multiset(scored))
      && kept == all[..|kept|]
      && Descending(kept)
      && forall i, j | 0 <= i < |kept| <= j < |all| :: kept[i].score >= all[j].score
  {
    SortDescFacts(scored);
    var all := SortDesc(scored);
    var kept := Ranked(scored, limit);
    assert kept == all[..PyBound(|all|, limit)];
    if limit >= |scored| {
      assert kept == all;
    }
    forall i, j | 0 <= i < |kept| <= j < |all| ensures kept[i].score >= all[j].score {
      assert kept[i] == all[i];
    }
  }

  // ---------------------------------------------------------------- the search

  /** `_search_longterm_jsonl`: `log` is the file's text, None when it does not exist. */
  function Search(log: Option<string>, query: string, limit: int, decode: string -> Option<JsonValue>, render: JsonValue -> string): Result<seq<string>, SearchError> {
    var tokens := Tokens(query);
    if log.None? || tokens == [] then Ok([])
    else match ScoredLines(SplitLines(log.value), tokens, decode, render)
      case Err(e) => Err(e)
      case Ok(scored) => Ok(Texts(Ranked(scored, limit)))
  }

  /** The scan, with its loop over the lines of the log. */
  method SearchLongtermJsonl(log: Option<string>, userInput: string, limit: int, decode: string -> Option<JsonValue>, render: JsonValue -> string)
    returns (r: Result<seq<string>, SearchError>)
    ensures r == Search(log, userInput, limit, decode, render)
  {
    if log.None? {
      return Ok([]);
    }
    var tokens := Tokens(userInput);
    if tokens == [] {
      return Ok([]);
    }
    var scored := ScanLines(SplitLines(log.value), tokens, decode, render);
    if scored.Err? {
      return Err(scored.error);
    }
    var ranked := SortDesc(scored.value);
    var texts := TakeTexts(ranked, limit);
    return Ok(texts);
  }

  /** The `for line in ...splitlines()` loop that fills `scored`. */
  method ScanLines(lines: seq<string>, tokens: seq<string>, decode: string -> Option<JsonValue>, render: JsonValue -> string)
    returns (r: Result<seq<Scored>, SearchError>)
    ensures r == ScoredLines(lines, tokens, decode, render)
  {
    var scored: seq<Scored> := [];
    for i := 0 to |lines|
      invariant ScoredLines(lines[..i], tokens, decode, render) == Ok(scored)
    {
      assert lines[..i + 1][..i] == lines[..i];
      var text := LineText(lines[i], decode, render);
      match text {
        case Err(e) =>
          ErrorStopsScan(lines, i + 1, tokens, decode, render);
          return Err(e);
        case Ok(None) =>
        case Ok(Some(t)) =>
          var score := Score(tokens, Lower(t));
          if score > 0 {
            scored := scored + [Scored(score, t)];
          }
      }
    }
    assert lines[..|lines|] == lines;
    return Ok(scored);
  }

  /** `[text for _, text in scored[:limit]]`. */
  method TakeTexts(ranked: seq<Scored>, limit: int) returns (texts: seq<string>)
    ensures texts == Texts(PyTake(ranked, limit))
  {
    var n := PyBound(|ranked|, limit);
    ghost var all := Texts(ranked[..n]);
    texts := [];
    for i := 0 to n
      invariant texts == all[..i]
    {
      assert all[..i + 1] == all[..i] + [all[i]];
      texts := texts + [ranked[i].text];
    }
    assert texts == all;
  }

  /**
   * The search returns nothing for a missing log or a query without tokens. Otherwise it fails
   * exactly at a line that is JSON but not an object, and on success returns as many texts as
   * `[:limit]` leaves of the matching records: each holds a query token, and when the limit
   * covers the matches, every matching record's text is among them.
   */
  lemma SearchReturnsMatches(log: Option<string>, query: string, limit: int, decode: string -> Option<JsonValue>, render: JsonValue -> string)
    ensures var r := Search(log, query, limit, decode, render);
      && (log.None? || Tokens(query) == [] ==> r == Ok([]))
      && (log.Some? && Tokens(query) != [] ==>
            var lines := SplitLines(log.value);
            var matches := Matching(lines, Tokens(query), decode, render);
            && (r.Ok? <==> Scannable(lines, decode, render))
            && (r.Ok? ==> |r.value| == PyBound(|matches|, limit))
            && (r.Ok? && limit >= |matches| ==> forall x | x in matches :: x.text in r.value))
      && (r.Ok? && limit >= 0 ==> |r.value| <= limit)
      && (r.Ok? ==> forall t | t in r.value :: exists tok | tok in Tokens(query) :: Contains(Lower(t), tok))
  {
    var tokens := Tokens(query);
    if log.Some? && tokens != [] {
      var lines := SplitLines(log.value);
      var sl := ScoredLines(lines, tokens, decode, render);
      ScoredLinesIsFilter(lines, tokens, decode, render);
      if sl.Ok? {
        TopRanked(sl.value, limit);
        RankedTextsMatch(lines, tokens, limit, decode, render);
        if limit >= |sl.value| {
          RankedTextsCover(sl.value, limit);
        }
      }
    }
  }

  /** Every ranked text of a successful scan holds a query token. */
  lemma RankedTextsMatch(lines: seq<string>, tokens: seq<string>, limit: int, decode: string -> Option<JsonValue>, render: JsonValue -> string)
    requires ScoredLines(lines, tokens, decode, render).Ok?
    ensures var kept := Ranked(ScoredLines(lines, tokens, decode, render).value, limit);
      forall t | t in Texts(kept) :: exists tok | tok in tokens :: Contains(Lower(t), tok)
  {
    var scored := ScoredLines(lines, tokens, decode, render).value;
    ScoredLinesPositive(lines, tokens, decode, render);
    SortDescFacts(scored);
    var kept := Ranked(scored, limit);
    forall t | t in Texts(kept) ensures exists tok | tok in tokens :: Contains(Lower(t), tok) {
      var i :| 0 <= i < |kept| && Texts(kept)[i] == t;
      assert kept[i] in multiset(SortDesc(scored));
      assert kept[i] in scored;
      ScoreCounts(tokens, Lower(t));
    }
  }

  /** A limit that covers the scored records keeps every one of their texts. */
  lemma RankedTextsCover(scored: seq<Scored>, limit: int)
    requires limit >= |scored|
    ensures forall x | x in scored :: x.text in Texts(Ranked(scored, limit))
  {
    var kept := Ranked(scored, limit);
    TopRanked(scored, limit);
    forall x | x in scored ensures x.text in Texts(kept) {
      assert x in multiset(kept);
      var i :| 0 <= i < |kept| && kept[i] == x;
      assert Texts(kept)[i] == x.text;
    }
  }

  /** `search_longterm`: the placeholder, or one "- text" bullet per match. */
  function Bullets(matches: seq<string>): (r: seq<string>)
    ensures |r| == |matches|
  {
    seq(|matches|, i requires 0 <= i < |matches| => "- " + matches[i])
  }

  function SearchLongterm(matches: seq<string>): string {
    if matches == [] then NoMatchesText else Join("\n", Bullets(matches))
  }

  /**
   * With matches, the text splits back on "\n" into one "- "-prefixed bullet per match, in
   * rank order (when no match holds a newline); without, it is the placeholder.
   */
  lemma SearchLongtermLines(matches: seq<string>)
    requires forall m | m in matches :: Lacks(m, '\n')
    ensures matches == [] ==> SearchLongterm(matches) == NoMatchesText
    ensures matches != [] ==>
      var lines := SplitOn(SearchLongterm(matches), '\n');
      |lines| == |matches| && forall i | 0 <= i < |lines| :: lines[i] == "- " + matches[i]
  {
    if matches != [] {
      var b := Bullets(matches);
      forall p | p in b ensures Lacks(p, '\n') {
        var i :| 0 <= i < |b| && b[i] == p;
        assert matches[i] in matches;
        forall k | 0 <= k < |p| ensures p[k] != '\n' {
          if k >= 2 {
            assert p[k] == matches[i][k - 2];
          }
        }
      }
      SplitOnJoin(b, '\n');
    }
  }
}
