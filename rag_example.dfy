/**
 * A worked retrieval: "What are the library timings?" matches only the
 * Library record ("library" and "timing"), so the context is that record
 * alone, rendered as `[Library]: ...`.
 */
module RagExample {
  import opened Wrappers
  import opened Text
  import opened Rag

  const LibraryQuery: string := "What are the library timings?"

  /** Only the leading 'W' of the query changes when it is lower-cased. */
  lemma LibraryQueryLowered()
    ensures var lq := ToLower(LibraryQuery);
      |lq| == 29 && lq[0] == 'w' && forall i :: 1 <= i < 29 ==> lq[i] == LibraryQuery[i]
  {
  }

  /** Filtering a list in which exactly one entry scores leaves that entry alone. */
  lemma {:induction false} RelevantOnly(s: seq<Scored>, k: nat)
    requires k < |s| && s[k].score > 0
    requires forall i :: 0 <= i < |s| && i != k ==> s[i].score == 0
    ensures Relevant(s) == [s[k]]
    decreases |s|
  {
    if k == 0 {
      RelevantNone(s[1..]);
    } else {
      assert forall i :: 0 <= i < |s[1..]| && i != k - 1 ==> s[1..][i] == s[i + 1];
      RelevantOnly(s[1..], k - 1);
    }
  }

  lemma {:induction false} RelevantNone(s: seq<Scored>)
    requires forall i :: 0 <= i < |s| ==> s[i].score == 0
    ensures Relevant(s) == []
    decreases |s|
  {
    if s != [] {
      RelevantNone(s[1..]);
    }
  }

  /** No two adjacent characters of `s` are `a` followed by `b`. */
  predicate NoPair(s: string, a: char, b: char) {
    forall i :: 0 <= i && i + 1 < |s| ==> !(s[i] == a && s[i + 1] == b)
  }

  /** The characters and character pairs the lower-cased query lacks. */
  lemma LibraryQueryLacks(lq: string)
    requires lq == ToLower(LibraryQuery)
    ensures 'c' !in lq && 'd' !in lq && 'f' !in lq && 'o' !in lq && 'p' !in lq
    ensures 'q' !in lq && 'u' !in lq && 'v' !in lq && 'x' !in lq
    ensures NoPair(lq, 'e', 'l') && NoPair(lq, 'e', 'm') && NoPair(lq, 't', 'e') && NoPair(lq, 'm', 'e')
  {
    LibraryQueryLowered();
    LacksChars(lq);
    LacksPairs(lq);
  }

  lemma LacksChars(lq: string)
    requires |lq| == 29 && lq[0] == 'w' && forall i :: 1 <= i < 29 ==> lq[i] == LibraryQuery[i]
    ensures 'c' !in lq && 'd' !in lq && 'f' !in lq && 'o' !in lq && 'p' !in lq
    ensures 'q' !in lq && 'u' !in lq && 'v' !in lq && 'x' !in lq
  {
  }

  lemma LacksPairs(lq: string)
    requires |lq| == 29 && lq[0] == 'w' && forall i :: 1 <= i < 29 ==> lq[i] == LibraryQuery[i]
    ensures NoPair(lq, 'e', 'l') && NoPair(lq, 'e', 'm') && NoPair(lq, 't', 'e') && NoPair(lq, 'm', 'e')
  {
    LacksPairsFrom(lq, 'e');
    LacksPairsFrom(lq, 't');
    LacksPairsFrom(lq, 'm');
  }

  /** Every character of the query that can start one of the pairs above is followed by another. */
  lemma LacksPairsFrom(lq: string, a: char)
    requires |lq| == 29 && lq[0] == 'w' && forall i :: 1 <= i < 29 ==> lq[i] == LibraryQuery[i]
    requires a == 'e' || a == 't' || a == 'm'
    ensures a == 'e' ==> NoPair(lq, 'e', 'l') && NoPair(lq, 'e', 'm')
    ensures a == 't' ==> NoPair(lq, 't', 'e')
    ensures a == 'm' ==> NoPair(lq, 'm', 'e')
  {
  }

  /** The lower-cased query spells "library" at 13 and "timing" at 21. */
  lemma LibraryQueryMatches(lq: string)
    requires lq == ToLower(LibraryQuery)
    ensures Includes(lq, "library") && Includes(lq, "timing")
  {
    LibraryQueryLowered();
    IncludesAt(lq, "library", 13);
    IncludesAt(lq, "timing", 21);
  }

  lemma AdmissionsScoresZero(lq: string)
    requires 'd' !in lq && 'p' !in lq && 'q' !in lq && NoPair(lq, 'e', 'l')
    ensures Hits(lq, Keywords(0)) == 0
  {
    MissingCharExcludes(lq, "admission", 1);
    MissingCharExcludes(lq, "apply", 1);
    MissingCharExcludes(lq, "deadline", 0);
    MissingCharExcludes(lq, "procedure", 0);
    MissingCharExcludes(lq, "requirements", 2);
    MissingPairExcludes(lq, "eligibility", 0);
  }

  lemma ComputerScienceScoresZero(lq: string)
    requires 'c' !in lq && 'p' !in lq && 'u' !in lq
    ensures Hits(lq, Keywords(1)) == 0
  {
    var k := Keywords(1);
    forall i | 0 <= i < 6 ensures !Includes(lq, k[i]) {
      MissingCharExcludes(lq, k[i], 0);
    }
    MissingCharExcludes(lq, "syllabus", 6);
  }

  lemma LibraryScoresTwo(lq: string)
    requires 'o' !in lq && 'c' !in lq && 'd' !in lq
    requires Includes(lq, "library") && Includes(lq, "timing")
    ensures Hits(lq, Keywords(2)) == 2
  {
    var k := Keywords(2);
    MissingCharExcludes(lq, "books", 1);
    MissingCharExcludes(lq, "open", 0);
    MissingCharExcludes(lq, "close", 0);
    MissingCharExcludes(lq, "borrow", 1);
    MissingCharExcludes(lq, "reading", 3);
    HitsCountsMatches(lq, k);
    assert MatchedPositions(lq, k) == {0, 2};
  }

  lemma EventsScoresZero(lq: string)
    requires 'v' !in lq && 'f' !in lq && 'c' !in lq && 'o' !in lq && 'p' !in lq
    ensures Hits(lq, Keywords(3)) == 0
  {
    MissingCharExcludes(lq, "event", 1);
    MissingCharExcludes(lq, "fest", 0);
    MissingCharExcludes(lq, "hackathon", 2);
    MissingCharExcludes(lq, "workshop", 1);
    MissingCharExcludes(lq, "cultural", 0);
    MissingCharExcludes(lq, "sports", 1);
  }

  lemma ContactScoresZero(lq: string)
    requires 'c' !in lq && 'p' !in lq && 'u' !in lq && 'd' !in lq && 'o' !in lq && NoPair(lq, 'e', 'm')
    ensures Hits(lq, Keywords(4)) == 0
  {
    MissingCharExcludes(lq, "contact", 0);
    MissingPairExcludes(lq, "email", 0);
    MissingCharExcludes(lq, "phone", 0);
    MissingCharExcludes(lq, "number", 1);
    MissingCharExcludes(lq, "address", 1);
    MissingCharExcludes(lq, "location", 1);
    MissingCharExcludes(lq, "help", 3);
  }

  lemma FeesScoresZero(lq: string)
    requires 'f' !in lq && 'u' !in lq && 'c' !in lq && 'p' !in lq
    ensures Hits(lq, Keywords(5)) == 0
  {
    MissingCharExcludes(lq, "fee", 0);
    MissingCharExcludes(lq, "tuition", 1);
    MissingCharExcludes(lq, "cost", 0);
    MissingCharExcludes(lq, "price", 0);
    MissingCharExcludes(lq, "scholarship", 1);
    MissingCharExcludes(lq, "financial aid", 0);
  }

  lemma ExamScoresZero(lq: string)
    requires 'x' !in lq && 'c' !in lq && 'u' !in lq && 'd' !in lq && 'f' !in lq
    requires NoPair(lq, 't', 'e') && NoPair(lq, 'm', 'e')
    ensures Hits(lq, Keywords(6)) == 0
  {
    MissingCharExcludes(lq, "exam", 1);
    MissingPairExcludes(lq, "test", 0);
    MissingCharExcludes(lq, "schedule", 1);
    MissingPairExcludes(lq, "timetable", 2);
    MissingCharExcludes(lq, "results", 3);
    MissingCharExcludes(lq, "midterm", 2);
    MissingCharExcludes(lq, "final", 0);
  }

  /** When exactly one record scores, the context is that record alone. */
  lemma RetrieveSingle(data: seq<Record>, query: string, k: nat)
    requires k < |data|
    requires Hits(ToLower(query), data[k].keywords) > 0
    requires forall i :: 0 <= i < |data| && i != k ==> Hits(ToLower(query), data[i].keywords) == 0
    ensures RetrieveFrom(data, query) == Some(Render(Scored(data[k], Hits(ToLower(query), data[k].keywords))))
  {
    var lq := ToLower(query);
    var all := ScoreAll(lq, data);
    var only := Scored(data[k], Hits(lq, data[k].keywords));
    RelevantOnly(all, k);
    assert SortByScore([only]) == [only];
    assert Renders([only]) == [Render(only)];
  }

  /** Every record but Library scores zero on the library query, and Library scores two. */
  lemma LibraryQueryScores(lq: string)
    requires lq == ToLower(LibraryQuery)
    ensures Hits(lq, Keywords(0)) == 0 && Hits(lq, Keywords(1)) == 0
    ensures Hits(lq, Keywords(2)) == 2 && Hits(lq, Keywords(3)) == 0
    ensures Hits(lq, Keywords(4)) == 0 && Hits(lq, Keywords(5)) == 0
    ensures Hits(lq, Keywords(6)) == 0
  {
    LibraryQueryLacks(lq);
    LibraryQueryMatches(lq);
    AdmissionsScoresZero(lq);
    ComputerScienceScoresZero(lq);
    LibraryScoresTwo(lq);
    EventsScoresZero(lq);
    ContactScoresZero(lq);
    FeesScoresZero(lq);
    ExamScoresZero(lq);
  }

  /** The knowledge base lists the records in declaration order. */
  lemma UniversityDataLayout()
    ensures |UniversityData()| == RecordCount
    ensures forall i :: 0 <= i < RecordCount ==> UniversityData()[i] == RecordAt(i)
  {
  }

  /** With the keyword scores above, only the record at position 2 scores. */
  lemma OnlyLibraryScores(lq: string, data: seq<Record>)
    requires |data| == RecordCount
    requires forall i :: 0 <= i < |data| ==> data[i].keywords == Keywords(i)
    requires Hits(lq, Keywords(0)) == 0 && Hits(lq, Keywords(1)) == 0
    requires Hits(lq, Keywords(2)) == 2 && Hits(lq, Keywords(3)) == 0
    requires Hits(lq, Keywords(4)) == 0 && Hits(lq, Keywords(5)) == 0
    requires Hits(lq, Keywords(6)) == 0
    ensures Hits(lq, data[2].keywords) == 2
    ensures forall i :: 0 <= i < |data| && i != 2 ==> Hits(lq, data[i].keywords) == 0
  {
  }

  /** On a knowledge base with the real keywords, the library query retrieves position 2 alone. */
  lemma LibraryQueryRetrieves(data: seq<Record>, query: string)
    requires query == LibraryQuery
    requires |data| == RecordCount
    requires forall i :: 0 <= i < |data| ==> data[i].keywords == Keywords(i)
    ensures RetrieveFrom(data, query) == Some(Render(Scored(data[2], 2)))
  {
    var lq := ToLower(query);
    LibraryQueryScores(lq);
    OnlyLibraryScores(lq, data);
    RetrieveSingle(data, query, 2);
  }

  /**
   * "What are the library timings?" yields exactly the Library entry,
   * rendered as `[Library]: ` and its text. The query is a parameter fixed by
   * the precondition, which keeps the verifier from evaluating the whole
   * knowledge base on a literal.
   */
  lemma LibraryQueryExample(query: string)
    requires query == LibraryQuery
    ensures Retrieve(query) == Some(Render(Scored(RecordAt(2), 2)))
    ensures RecordAt(2).category == "Library"
  {
    UniversityDataLayout();
    LibraryQueryRetrieves(UniversityData(), query);
  }
}
