/**
 * The keyword retriever: seven fixed knowledge records are scored against the
 * lower-cased query by counting the keywords the query contains; the records
 * that score are ordered by descending score (ties in list order), the best
 * three are rendered as `[category]: content` and joined by a blank line.
 */
module Rag {
  import opened Wrappers
  import opened Text

  datatype Record = Record(category: string, keywords: seq<string>, content: string)

  /** A copy of a record together with its score for one query (`{ ...item, score }`). */
  datatype Scored = Scored(item: Record, score: nat)

  /** How many entries the retriever keeps at most. */
  const TopK: nat := 3

  /** The separator between rendered entries: one blank line. */
  const EntrySeparator: string := "\n\n"

  /** The number of records in the knowledge base. */
  const RecordCount: nat := 7

  // The records of `universityData`, by position: 0 Admissions, 1 Computer
  // Science Course, 2 Library, 3 Events, 4 Contact, 5 Fees, 6 Exam. Each
  // field is a function of the position, so a proof that only mentions the
  // list never has to expand the texts.

  function Category(i: nat): string
    requires i < RecordCount
  {
    if i == 0 then "Admissions"
    else if i == 1 then "Computer Science Course"
    else if i == 2 then "Library"
    else if i == 3 then "Events"
    else if i == 4 then "Contact"
    else if i == 5 then "Fees"
    else "Exam"
  }

  function Keywords(i: nat): seq<string>
    requires i < RecordCount
  {
    if i == 0 then ["admission", "apply", "deadline", "procedure", "requirements", "eligibility"]
    else if i == 1 then ["computer science", "cse", "cs", "coding", "programming", "curriculum", "syllabus"]
    else if i == 2 then ["library", "books", "timing", "open", "close", "borrow", "reading"]
    else if i == 3 then ["event", "fest", "hackathon", "workshop", "cultural", "sports"]
    else if i == 4 then ["contact", "email", "phone", "number", "address", "location", "help"]
    else if i == 5 then ["fee", "tuition", "cost", "price", "scholarship", "financial aid"]
    else ["exam", "test", "schedule", "timetable", "results", "midterm", "final"]
  }

  function Content(i: nat): string
    requires i < RecordCount
  {
    if i == 0 then
      "Admissions for the " +
      "2026 academic year " +
      "are open. The " +
      "deadline for " +
      "undergraduate " +
      "applications is " +
      "June 30th. " +
      "Eligibility " +
      "requires a minimum " +
      "of 75% in 12th " +
      "grade Science " +
      "stream. You can " +
      "apply via the " +
      "portal at " +
      "apply.university.edu."
    else if i == 1 then
      "The B.Tech in " +
      "Computer Science " +
      "Engineering (CSE) " +
      "is a 4-year " +
      "program. It covers " +
      "Data Structures, " +
      "Algorithms, AI/ML, " +
      "Web Development, " +
      "and Cloud " +
      "Computing. The " +
      "department is led " +
      "by Dr. A. Sharma. " +
      "Top recruiters " +
      "include Google, " +
      "Microsoft, and " +
      "Amazon."
    else if i == 2 then
      "The Central Library " +
      "is open from 8:00 " +
      "AM to 10:00 PM on " +
      "weekdays and 9:00 " +
      "AM to 5:00 PM on " +
      "weekends. Students " +
      "can borrow up to 4 " +
      "books at a time for " +
      "14 days. Late fees " +
      "are $1 per day."
    else if i == 3 then
      "Upcoming events: 1. " +
      "'TechNova' Annual " +
      "Tech Fest - March " +
      "15th-17th. 2. " +
      "Inter-college " +
      "Hackathon - April " +
      "5th. 3. Sports Meet " +
      "- February 20th. " +
      "Registration links " +
      "are available on " +
      "the student " +
      "dashboard."
    else if i == 4 then
      "You can contact the " +
      "administration " +
      "office at " +
      "admin@university.edu " +
      "or call " +
      "+1-234-567-890. The " +
      "campus is located " +
      "at 123 Education " +
      "Lane, Knowledge " +
      "City."
    else if i == 5 then
      "The annual tuition " +
      "fee for engineering " +
      "courses is $15,000. " +
      "Hostel fees are " +
      "$5,000 per year. " +
      "Merit-based " +
      "scholarships are " +
      "available for " +
      "students with >90% " +
      "grades."
    else
      "Mid-term exams " +
      "start from October " +
      "10th. Final " +
      "semester exams are " +
      "scheduled for " +
      "December 15th. " +
      "Results are usually " +
      "declared 4 weeks " +
      "after the last exam."
  }

  function RecordAt(i: nat): Record
    requires i < RecordCount
  {
    Record(Category(i), Keywords(i), Content(i))
  }

  /** The knowledge base (`universityData`), in its fixed order. */
  function UniversityData(): seq<Record>
  {
    seq(RecordCount, i requires 0 <= i < RecordCount => RecordAt(i))
  }

  // ---------------------------------------------------------------- scoring

  /** Number of keywords, counted from the left, that occur in `lowerQuery`. */
  function Hits(lowerQuery: string, keywords: seq<string>): (n: nat)
    ensures n <= |keywords|
    ensures n == 0 <==> forall i :: 0 <= i < |keywords| ==> !Includes(lowerQuery, keywords[i])
  {
    if keywords == [] then 0
    else
      var init := keywords[..|keywords| - 1];
      assert forall i :: 0 <= i < |init| ==> init[i] == keywords[i];
      Hits(lowerQuery, init) + (if Includes(lowerQuery, keywords[|keywords| - 1]) then 1 else 0)
  }

  /** The positions of the keywords that occur in `lowerQuery`. */
  ghost function MatchedPositions(lowerQuery: string, keywords: seq<string>): set<nat>
  {
    set i: nat | i < |keywords| && Includes(lowerQuery, keywords[i])
  }

  /** A record's score is the number of its keywords that are substrings of the query. */
  lemma {:induction false} HitsCountsMatches(lowerQuery: string, keywords: seq<string>)
    ensures Hits(lowerQuery, keywords) == |MatchedPositions(lowerQuery, keywords)|
    decreases |keywords|
  {
    if keywords != [] {
      var n := |keywords| - 1;
      var init := keywords[..n];
      HitsCountsMatches(lowerQuery, init);
      var before := MatchedPositions(lowerQuery, init);
      if Includes(lowerQuery, keywords[n]) {
        assert MatchedPositions(lowerQuery, keywords) == before + {n};
        assert n !in before;
      } else {
        assert MatchedPositions(lowerQuery, keywords) == before;
      }
    }
  }

  /** The `forEach` over one record's keywords, incrementing `score` on every match. */
  method ScoreKeywords(lowerQuery: string, keywords: seq<string>) returns (score: nat)
    ensures score == Hits(lowerQuery, keywords)
  {
    score := 0;
    for i := 0 to |keywords|
      invariant score == Hits(lowerQuery, keywords[..i])
    {
      assert keywords[..i + 1][..i] == keywords[..i];
      if Includes(lowerQuery, keywords[i]) {
        score := score + 1;
      }
    }
    assert keywords[..|keywords|] == keywords;
  }

  /** `universityData.map(...)`: every record, unchanged, paired with its score. */
  function ScoreAll(lowerQuery: string, data: seq<Record>): (r: seq<Scored>)
    ensures |r| == |data|
    ensures forall i :: 0 <= i < |data| ==> r[i].item == data[i] && r[i].score == Hits(lowerQuery, data[i].keywords)
  {
    seq(|data|, i requires 0 <= i < |data| => Scored(data[i], Hits(lowerQuery, data[i].keywords)))
  }

  // ------------------------------------------------------ filter and sort

  /** The entries of `s` with score `v`, in their order in `s`. */
  function WithScore(s: seq<Scored>, v: nat): seq<Scored>
  {
    if s == [] then []
    else (if s[0].score == v then [s[0]] else []) + WithScore(s[1..], v)
  }

  lemma {:induction false} WithScoreAppend(a: seq<Scored>, b: seq<Scored>, v: nat)
    ensures WithScore(a + b, v) == WithScore(a, v) + WithScore(b, v)
    decreases |a|
  {
    if a == [] {
      assert a + b == b;
    } else {
      assert (a + b)[1..] == a[1..] + b;
      WithScoreAppend(a[1..], b, v);
    }
  }

  /** `.filter(item => item.score > 0)`. */
  function Relevant(s: seq<Scored>): (r: seq<Scored>)
    ensures |r| <= |s|
    ensures forall x :: x in r <==> x in s && x.score > 0
  {
    if s == [] then []
    else (if s[0].score > 0 then [s[0]] else []) + Relevant(s[1..])
  }

  /** Filtering keeps, for every positive score, exactly the entries with that score in order. */
  lemma {:induction false} RelevantByScore(s: seq<Scored>, v: nat)
    ensures WithScore(Relevant(s), v) == if v > 0 then WithScore(s, v) else []
    decreases |s|
  {
    if s != [] {
      RelevantByScore(s[1..], v);
      var head := if s[0].score > 0 then [s[0]] else [];
      WithScoreAppend(head, Relevant(s[1..]), v);
      assert WithScore(head, v) == if s[0].score == v && v > 0 then [s[0]] else [] by {
        if head != [] {
          assert head[1..] == [];
        }
      }
    }
  }

  /** Non-increasing scores. */
  predicate SortedByScore(s: seq<Scored>) {
    forall i, j :: 0 <= i < j < |s| ==> s[i].score >= s[j].score
  }

  /** Places `x` before the first entry that does not outscore it. */
  function Insert(x: Scored, s: seq<Scored>): seq<Scored>
  {
    if s == [] then [x]
    else if s[0].score <= x.score then [x] + s
    else [s[0]] + Insert(x, s[1..])
  }

  /**
   * `.sort((a, b) => b.score - a.score)`, stable as ECMAScript requires:
   * an insertion sort in which each element goes ahead of the equal-score
   * elements that follow it in the input.
   */
  function SortByScore(s: seq<Scored>): seq<Scored>
  {
    if s == [] then [] else Insert(s[0], SortByScore(s[1..]))
  }

  lemma {:induction false} InsertPermutes(x: Scored, s: seq<Scored>)
    ensures multiset(Insert(x, s)) == multiset(s) + multiset{x}
    decreases |s|
  {
    if s != [] && s[0].score > x.score {
      InsertPermutes(x, s[1..]);
      assert s == [s[0]] + s[1..];
    }
  }

  /** Every score in `s` is at most `b`. */
  predicate ScoresAtMost(s: seq<Scored>, b: nat) {
    forall i :: 0 <= i < |s| ==> s[i].score <= b
  }

  lemma InsertAtMost(x: Scored, s: seq<Scored>, b: nat)
    requires ScoresAtMost(s, b) && x.score <= b
    ensures ScoresAtMost(Insert(x, s), b)
  {
    var r := Insert(x, s);
    InsertPermutes(x, s);
    forall i | 0 <= i < |r| ensures r[i].score <= b {
      assert r[i] in multiset(s) + multiset{x};
      if r[i] != x {
        assert r[i] in s;
      }
    }
  }

  /** Putting a head in front of a sorted tail that it bounds keeps the sequence sorted. */
  lemma ConsSorted(h: Scored, t: seq<Scored>)
    requires SortedByScore(t) && ScoresAtMost(t, h.score)
    ensures SortedByScore([h] + t)
  {
    var r := [h] + t;
    forall i, j | 0 <= i < j < |r| ensures r[i].score >= r[j].score {
      assert r[j] == t[j - 1];
      if i > 0 {
        assert r[i] == t[i - 1];
      }
    }
  }

  lemma {:induction false} InsertSorted(x: Scored, s: seq<Scored>)
    requires SortedByScore(s)
    ensures SortedByScore(Insert(x, s))
    decreases |s|
  {
    if s == [] {
    } else if s[0].score <= x.score {
      assert ScoresAtMost(s, x.score) by {
        assert forall i :: 0 < i < |s| ==> s[0].score >= s[i].score;
      }
      ConsSorted(x, s);
    } else {
      var t := s[1..];
      assert SortedByScore(t) by {
        assert forall i, j :: 0 <= i < j < |t| ==> t[i] == s[i + 1] && t[j] == s[j + 1];
      }
      assert ScoresAtMost(t, s[0].score) by {
        assert forall i :: 0 <= i < |t| ==> t[i] == s[i + 1];
      }
      InsertSorted(x, t);
      InsertAtMost(x, t, s[0].score);
      ConsSorted(s[0], Insert(x, t));
    }
  }

  lemma {:induction false} InsertStable(x: Scored, s: seq<Scored>, v: nat)
    ensures WithScore(Insert(x, s), v) == (if x.score == v then [x] else []) + WithScore(s, v)
    decreases |s|
  {
    if s == [] {
    } else if s[0].score <= x.score {
      assert ([x] + s)[1..] == s;
    } else {
      var rest := Insert(x, s[1..]);
      InsertStable(x, s[1..], v);
      assert ([s[0]] + rest)[1..] == rest;
    }
  }

  /** Sorting orders by score, is a permutation, and is stable. */
  lemma {:induction false} SortByScoreCorrect(s: seq<Scored>)
    ensures |SortByScore(s)| == |s|
    ensures multiset(SortByScore(s)) == multiset(s)
    ensures SortedByScore(SortByScore(s))
    ensures forall v: nat :: WithScore(SortByScore(s), v) == WithScore(s, v)
    decreases |s|
  {
    if s != [] {
      var rest := SortByScore(s[1..]);
      SortByScoreCorrect(s[1..]);
      InsertPermutes(s[0], rest);
      InsertSorted(s[0], rest);
      forall v: nat ensures WithScore(SortByScore(s), v) == WithScore(s, v) {
        InsertStable(s[0], rest, v);
      }
      assert s == [s[0]] + s[1..];
      assert |multiset(SortByScore(s))| == |multiset(s)|;
    }
  }

  // ------------------------------------------------------- top 3 and join

  /** `.slice(0, n)`. */
  function Take(s: seq<Scored>, n: nat): (r: seq<Scored>)
    ensures |r| == if |s| < n then |s| else n
    ensures r == s[..|r|]
  {
    if |s| < n then s else s[..n]
  }

  /** `[${item.category}]: ${item.content}` */
  function Render(x: Scored): string
  {
    "[" + x.item.category + "]: " + x.item.content
  }

  /** `.map(Render)`. */
  function Renders(s: seq<Scored>): (r: seq<string>)
    ensures |r| == |s|
    ensures forall i :: 0 <= i < |s| ==> r[i] == Render(s[i])
  {
    if s == [] then [] else [Render(s[0])] + Renders(s[1..])
  }

  /** The entries the retriever returns for an already lower-cased query. */
  function TopEntries(lowerQuery: string, data: seq<Record>): seq<Scored>
  {
    Take(SortByScore(Relevant(ScoreAll(lowerQuery, data))), TopK)
  }

  /** `retrieveContext` over a given knowledge base. */
  function RetrieveFrom(data: seq<Record>, query: string): Option<string>
  {
    var top := TopEntries(ToLower(query), data);
    if |top| == 0 then None else Some(Join(Renders(top), EntrySeparator))
  }

  /** `retrieveContext(query)`. */
  function Retrieve(query: string): Option<string>
  {
    RetrieveFrom(UniversityData(), query)
  }

  /** The retriever as `retrieveContext` computes it: a scoring loop per record, then the pipeline. */
  method RetrieveContextFrom(data: seq<Record>, query: string) returns (r: Option<string>)
    ensures r == RetrieveFrom(data, query)
  {
    var lowerQuery := ToLower(query);
    var scored: seq<Scored> := [];
    for i := 0 to |data|
      invariant |scored| == i
      invariant forall j :: 0 <= j < i ==> scored[j] == Scored(data[j], Hits(lowerQuery, data[j].keywords))
    {
      var score := ScoreKeywords(lowerQuery, data[i].keywords);
      scored := scored + [Scored(data[i], score)];
    }
    assert scored == ScoreAll(lowerQuery, data);
    var relevantItems := Take(SortByScore(Relevant(scored)), TopK);
    if |relevantItems| == 0 {
      return None;
    }
    r := Some(Join(Renders(relevantItems), EntrySeparator));
  }

  /** `retrieveContext(query)` over the fixed knowledge base. */
  method RetrieveContext(query: string) returns (r: Option<string>)
    ensures r == Retrieve(query)
  {
    r := RetrieveContextFrom(UniversityData(), query);
  }

  // ------------------------------------------------------------ properties

  /** Matching is insensitive to the case of the query. */
  lemma RetrieveIgnoresCase(data: seq<Record>, query: string)
    ensures RetrieveFrom(data, ToLower(query)) == RetrieveFrom(data, query)
  {
    ToLowerIdempotent(query);
  }

  /**
   * The returned entries: exactly min(3, number of scoring records) of them,
   * each one of the scored records with a positive score, in non-increasing
   * score order.
   */
  lemma TopEntriesRanked(lowerQuery: string, data: seq<Record>)
    ensures var top := TopEntries(lowerQuery, data);
      var all := ScoreAll(lowerQuery, data);
      && |top| <= TopK
      && |top| == (if |Relevant(all)| < TopK then |Relevant(all)| else TopK)
      && (forall x :: x in top ==> x in all && x.score > 0)
      && SortedByScore(top)
  {
    var all := ScoreAll(lowerQuery, data);
    var sorted := SortByScore(Relevant(all));
    var top := TopEntries(lowerQuery, data);
    SortByScoreCorrect(Relevant(all));
    assert top == sorted[..|top|];
    forall x | x in top ensures x in all && x.score > 0 {
      assert x in multiset(sorted);
    }
    forall i, j | 0 <= i < j < |top| ensures top[i].score >= top[j].score {
      assert top[i] == sorted[i] && top[j] == sorted[j];
    }
  }

  /** No record left out scores more than a record kept. */
  lemma TopEntriesOutscore(lowerQuery: string, data: seq<Record>)
    ensures var top := TopEntries(lowerQuery, data);
      forall x, y :: x in ScoreAll(lowerQuery, data) && x !in top && y in top ==> x.score <= y.score
  {
    var all := ScoreAll(lowerQuery, data);
    var sorted := SortByScore(Relevant(all));
    var top := TopEntries(lowerQuery, data);
    SortByScoreCorrect(Relevant(all));
    assert top == sorted[..|top|];
    forall x, y | x in all && x !in top && y in top ensures x.score <= y.score {
      assert y in multiset(sorted);
      if x.score > 0 {
        assert x in multiset(sorted);
        var k :| 0 <= k < |sorted| && sorted[k] == x;
        var i :| 0 <= i < |top| && top[i] == y;
        assert k >= |top|;
        assert sorted[i] == y;
      }
    }
  }

  /**
   * Ties keep knowledge-base order: of the records with one positive score,
   * the ones kept are the first ones in knowledge-base order, in that order.
   */
  lemma TopEntriesStable(lowerQuery: string, data: seq<Record>, v: nat)
    requires v > 0
    ensures WithScore(TopEntries(lowerQuery, data), v) <= WithScore(ScoreAll(lowerQuery, data), v)
  {
    var all := ScoreAll(lowerQuery, data);
    var sorted := SortByScore(Relevant(all));
    var top := TopEntries(lowerQuery, data);
    SortByScoreCorrect(Relevant(all));
    assert sorted == top + sorted[|top|..];
    WithScoreAppend(top, sorted[|top|..], v);
    RelevantByScore(all, v);
  }

  /** The retriever returns nothing exactly when no record scores. */
  lemma RetrieveNoneIff(data: seq<Record>, query: string)
    ensures RetrieveFrom(data, query) == None <==>
      forall i :: 0 <= i < |data| ==> Hits(ToLower(query), data[i].keywords) == 0
  {
    var q := ToLower(query);
    var all := ScoreAll(q, data);
    var rel := Relevant(all);
    assert |SortByScore(rel)| == |rel| by {
      SortByScoreCorrect(rel);
    }
    assert |TopEntries(q, data)| == 0 <==> rel == [];
    if rel == [] {
      forall i | 0 <= i < |data| ensures Hits(q, data[i].keywords) == 0 {
        assert all[i] !in rel;
      }
    } else {
      assert rel[0] in all;
    }
  }

  /**
   * A returned context holds one to three entries and opens with the best
   * one rendered, so it is never the empty string (it is truthy).
   */
  lemma RetrieveRenders(data: seq<Record>, query: string)
    ensures var top := TopEntries(ToLower(query), data);
      var r := RetrieveFrom(data, query);
      r != None ==>
        && 1 <= |top| <= TopK
        && |Render(top[0])| <= |r.value|
        && r.value[..|Render(top[0])|] == Render(top[0])
        && |r.value| > 0
  {
    var top := TopEntries(ToLower(query), data);
    TopEntriesRanked(ToLower(query), data);
    if |top| > 0 {
      JoinStartsWith(Renders(top), EntrySeparator);
    }
  }

  /**
   * Matching ignores case: two queries that differ only in the case of
   * ASCII letters retrieve the same context.
   */
  lemma RetrieveCaseInsensitive(data: seq<Record>, q1: string, q2: string)
    requires |q1| == |q2|
    requires forall i :: 0 <= i < |q1| ==>
      q1[i] == q2[i] || (IsUpper(q1[i]) && q2[i] as int == q1[i] as int + 32) ||
      (IsUpper(q2[i]) && q1[i] as int == q2[i] as int + 32)
    ensures RetrieveFrom(data, q1) == RetrieveFrom(data, q2)
  {
    assert forall i :: 0 <= i < |q1| ==> ToLower(q1)[i] == ToLower(q2)[i];
    assert ToLower(q1) == ToLower(q2);
  }
}
