/**
 * The worked example of the long-term search: three records, the query "cat dog" and a
 * limit of 2.
 */
module RetrievalExample {
  import opened Wrappers
  import opened Text
  import opened Json
  import opened Retrieval

  const Sat: string := "cat sat"
  const Ran: string := "dog ran"
  const Played: string := "cat and dog"

  lemma SplitCatDog()
    ensures Split("cat dog") == ["cat", "dog"]
  {
    assert Word("cat") && Word("dog");
    SplitTwoWords("cat", "dog");
    assert "cat" + " " + "dog" == "cat dog";
  }

  lemma LowerCatDog()
    ensures Lower("cat dog") == "cat dog"
  {
    LowerUnchanged("cat dog");
  }

  lemma LongCatDog()
    ensures LongWords(["cat", "dog"]) == ["cat", "dog"]
  {
    assert ["cat", "dog"][1..] == ["dog"];
    assert LongWords(["dog"]) == ["dog"];
  }

  lemma TokensCatDog()
    ensures Tokens("cat dog") == ["cat", "dog"]
  {
    LowerCatDog();
    SplitCatDog();
    LongCatDog();
  }

  lemma Occurs(hay: string, needle: string, i: nat)
    requires i + |needle| <= |hay| && forall k | 0 <= k < |needle| :: hay[i + k] == needle[k]
    ensures Contains(hay, needle)
  {
    assert hay[i..i + |needle|] == needle;
    ContainsIff(hay, needle);
    assert OccursAt(hay, needle, i);
  }

  lemma Absent(hay: string, needle: string)
    requires needle != []
    requires forall i | 0 <= i < |hay| :: hay[i] != needle[0]
    ensures !Contains(hay, needle)
  {
    ContainsIff(hay, needle);
    forall i ensures !OccursAt(hay, needle, i) {
      if 0 <= i && i + |needle| <= |hay| {
        assert hay[i..i + |needle|][0] == hay[i];
      }
    }
  }

  lemma LowerUnchanged(s: string)
    requires forall k | 0 <= k < |s| :: !('A' <= s[k] <= 'Z')
    ensures Lower(s) == s
  {
  }

  lemma ScoreSat()
    ensures Score(["cat", "dog"], Lower(Sat)) == 1
  {
    LowerUnchanged(Sat);
    Occurs(Sat, "cat", 0);
    Absent(Sat, "dog");
  }

  lemma ScoreRan()
    ensures Score(["cat", "dog"], Lower(Ran)) == 1
  {
    LowerUnchanged(Ran);
    Absent(Ran, "cat");
    Occurs(Ran, "dog", 0);
  }

  lemma ScorePlayed()
    ensures Score(["cat", "dog"], Lower(Played)) == 2
  {
    LowerUnchanged(Played);
    Occurs(Played, "cat", 0);
    Occurs(Played, "dog", 8);
  }

  lemma Ranking()
    ensures Texts(Ranked([Scored(1, Sat), Scored(1, Ran), Scored(2, Played)], 2)) == [Played, Sat]
  {
    var sat, ran, played := Scored(1, Sat), Scored(1, Ran), Scored(2, Played);
    assert [played][1..] == [];
    assert SortDesc([played]) == [played];
    assert [ran, played][1..] == [played];
    assert Insert(ran, []) == [ran];
    assert Insert(ran, [played]) == [played, ran];
    assert SortDesc([ran, played]) == [played, ran];
    assert [sat, ran, played][1..] == [ran, played];
    assert Insert(sat, [ran]) == [sat, ran];
    assert [played, ran][1..] == [ran];
    assert Insert(sat, [played, ran]) == [played, sat, ran];
    assert SortDesc([sat, ran, played]) == [played, sat, ran];
    assert PyTake([played, sat, ran], 2) == [played, sat];
  }

  lemma RecordLine(line: string, text: string, decode: string -> Option<JsonValue>, render: JsonValue -> string)
    requires !Blank(line) && decode(Strip(line)) == Some(JObject(map["text" := JString(text)]))
    ensures LineText(line, decode, render) == Ok(Some(text))
  {
    StripEmptyIffBlank(line);
  }

  lemma ScanThree(l1: string, l2: string, l3: string, t1: string, t2: string, t3: string, k1: nat, k2: nat, k3: nat,
                  tokens: seq<string>, decode: string -> Option<JsonValue>, render: JsonValue -> string)
    requires LineText(l1, decode, render) == Ok(Some(t1)) && Score(tokens, Lower(t1)) == k1 > 0
    requires LineText(l2, decode, render) == Ok(Some(t2)) && Score(tokens, Lower(t2)) == k2 > 0
    requires LineText(l3, decode, render) == Ok(Some(t3)) && Score(tokens, Lower(t3)) == k3 > 0
    ensures ScoredLines([l1, l2, l3], tokens, decode, render) == Ok([Scored(k1, t1), Scored(k2, t2), Scored(k3, t3)])
  {
    assert ScoredLines([], tokens, decode, render) == Ok([]);
    ScanAppend([], l1, t1, tokens, decode, render);
    assert [] + [l1] == [l1];
    var none: seq<Scored> := [];
    assert none + [Scored(k1, t1)] == [Scored(k1, t1)];
    assert ScoredLines([l1], tokens, decode, render) == Ok([Scored(k1, t1)]);
    ScanAppend([l1], l2, t2, tokens, decode, render);
    assert [l1] + [l2] == [l1, l2];
    assert [Scored(k1, t1)] + [Scored(k2, t2)] == [Scored(k1, t1), Scored(k2, t2)];
    assert ScoredLines([l1, l2], tokens, decode, render) == Ok([Scored(k1, t1), Scored(k2, t2)]);
    ScanAppend([l1, l2], l3, t3, tokens, decode, render);
    assert [l1, l2] + [l3] == [l1, l2, l3];
    assert [Scored(k1, t1), Scored(k2, t2)] + [Scored(k3, t3)] == [Scored(k1, t1), Scored(k2, t2), Scored(k3, t3)];
  }

  lemma ScanAppend(lines: seq<string>, line: string, text: string, tokens: seq<string>, decode: string -> Option<JsonValue>, render: JsonValue -> string)
    requires ScoredLines(lines, tokens, decode, render).Ok?
    requires LineText(line, decode, render) == Ok(Some(text)) && Score(tokens, Lower(text)) > 0
    ensures ScoredLines(lines + [line], tokens, decode, render)
      == Ok(ScoredLines(lines, tokens, decode, render).value + [Scored(Score(tokens, Lower(text)), text)])
  {
    assert (lines + [line])[..|lines|] == lines;
  }

  /**
   * With records "cat sat", "dog ran" and "cat and dog", in
   * that order in the log, and the query "cat dog", the two best are the record holding both
   * tokens, then the first record holding one (it comes before the other one-token record).
   */
  lemma CatDogExample(sat: string, ran: string, played: string, decode: string -> Option<JsonValue>, render: JsonValue -> string)
    requires !Blank(sat) && !Blank(ran) && !Blank(played)
    requires decode(Strip(sat)) == Some(JObject(map["text" := JString(Sat)]))
    requires decode(Strip(ran)) == Some(JObject(map["text" := JString(Ran)]))
    requires decode(Strip(played)) == Some(JObject(map["text" := JString(Played)]))
    ensures var scored := ScoredLines([sat, ran, played], Tokens("cat dog"), decode, render);
      scored.Ok? && Texts(Ranked(scored.value, 2)) == [Played, Sat]
  {
    TokensCatDog();
    ScoreSat();
    ScoreRan();
    ScorePlayed();
    RecordLine(sat, Sat, decode, render);
    RecordLine(ran, Ran, decode, render);
    RecordLine(played, Played, decode, render);
    ScanThree(sat, ran, played, Sat, Ran, Played, 1, 1, 2, ["cat", "dog"], decode, render);
    Ranking();
  }
}
