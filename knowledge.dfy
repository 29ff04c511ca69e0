/**
  The learned question/answer store of `knowledge_base.py`.

  The source keeps `learned_qa`, a Python dict from ids `qa_1`, `qa_2`, ... to
  records, and walks it in insertion order; here it is a sequence of (id, record)
  entries in that order. The specification functions on sequences come first;
  the class `KnowledgeBase` holds the state and runs the source's loops.
 */
module Knowledge {
  import opened Wrappers
  import opened PyStr
  import opened Scoring

  /** An ISO-8601 time stamp; the clock itself is an input of the model. */
  type Timestamp = String

  /** One learned question/answer pair and how often it was matched. */
  datatype QARecord = QARecord(
    question: String,
    response: String,
    keywords: seq<String>,
    count: nat,
    created: Timestamp,
    lastUpdated: Timestamp)

  /** One key/value pair of `learned_qa`. */
  datatype Entry = Entry(id: String, qa: QARecord)

  /** A stored question is merged with a new message scoring strictly above this. */
  const MergeThreshold: real := 0.7

  /** A stored answer is served for a message scoring strictly above this. */
  const LookupThreshold: real := 0.6

  /** The id `f"qa_{n}"`. */
  function QaId(n: nat): String {
    "qa_" + NatToString(n)
  }

  lemma QaIdInjective(m: nat, n: nat)
    requires QaId(m) == QaId(n)
    ensures m == n
  {
    assert QaId(m)[3..] == NatToString(m);
    assert QaId(n)[3..] == NatToString(n);
    NatToStringInjective(m, n);
  }

  /** The store's invariant: the k-th entry (from 1) has id `qa_k`, and every
      record has been used at least once. */
  predicate WellFormed(entries: seq<Entry>) {
    forall i :: 0 <= i < |entries| ==> entries[i].id == QaId(i + 1) && entries[i].qa.count >= 1
  }

  /** In a well-formed store no two entries share an id, so the sequence is a
      faithful picture of the dict. */
  lemma IdsDistinct(entries: seq<Entry>)
    requires WellFormed(entries)
    ensures forall i, j :: 0 <= i < j < |entries| ==> entries[i].id != entries[j].id
  {
    forall i, j | 0 <= i < j < |entries| ensures entries[i].id != entries[j].id {
      if entries[i].id == entries[j].id {
        QaIdInjective(i + 1, j + 1);
      }
    }
  }

  /** The set of keys of the dict. */
  function Ids(entries: seq<Entry>): set<String> {
    set e | e in entries :: e.id
  }

  /** `len(learned_qa)`, the number of keys, is the number of entries. */
  lemma {:induction false} IdsCount(entries: seq<Entry>)
    requires forall i, j :: 0 <= i < j < |entries| ==> entries[i].id != entries[j].id
    ensures |Ids(entries)| == |entries|
  {
    if entries != [] {
      var n := |entries| - 1;
      var front := entries[..n];
      IdsCount(front);
      assert Ids(entries) == Ids(front) + {entries[n].id} by {
        assert entries == front + [entries[n]];
      }
      assert entries[n].id !in Ids(front) by {
        forall e | e in front ensures e.id != entries[n].id {
          var k :| 0 <= k < n && front[k] == e;
        }
      }
    }
  }

  /** In a well-formed store, `len(learned_qa)` is the number of entries. */
  lemma KeysCount(entries: seq<Entry>)
    ensures WellFormed(entries) ==> |Ids(entries)| == |entries|
  {
    if WellFormed(entries) {
      IdsDistinct(entries);
      IdsCount(entries);
    }
  }

  /** The score of `message` against the question stored in `e`. */
  function Score(message: String, e: Entry): real {
    SimilarityScore(message, e.qa.question)
  }

  /** The first entry, in insertion order, whose question scores above the
      merge threshold against `message`. */
  function FirstSimilar(entries: seq<Entry>, message: String): (r: Option<nat>)
    ensures r.Some? ==> r.value < |entries| && Score(message, entries[r.value]) > MergeThreshold
    ensures r.Some? ==> forall j :: 0 <= j < r.value ==> Score(message, entries[j]) <= MergeThreshold
    ensures r.None? ==> forall j :: 0 <= j < |entries| ==> Score(message, entries[j]) <= MergeThreshold
  {
    if entries == [] then None
    else if Score(message, entries[0]) > MergeThreshold then Some(0)
    else
      var rest := entries[1..];
      assert forall j :: 0 <= j < |rest| ==> rest[j] == entries[j + 1];
      match FirstSimilar(rest, message)
      case None => None
      case Some(k) => Some(k + 1)
  }

  /** `FirstSimilar` is `i` when `i` scores above the merge threshold and no
      earlier entry does, and none when no entry does. */
  lemma FirstSimilarAt(entries: seq<Entry>, message: String, i: nat)
    requires i <= |entries|
    requires forall j :: 0 <= j < i ==> Score(message, entries[j]) <= MergeThreshold
    ensures i < |entries| && Score(message, entries[i]) > MergeThreshold ==> FirstSimilar(entries, message) == Some(i)
    ensures i == |entries| ==> FirstSimilar(entries, message) == None
  {
  }

  /** The matched record after a merge: one more use, refreshed at `now`. */
  function Bump(e: Entry, now: Timestamp): Entry {
    e.(qa := e.qa.(count := e.qa.count + 1, lastUpdated := now))
  }

  /** The record inserted for a new question under the `n`-th id. */
  function NewEntry(n: nat, message: String, response: String, now: Timestamp): Entry {
    Entry(QaId(n), QARecord(message, response, ExtractKeywords(message), 1, now, now))
  }

  /** The entries after `add_conversation(message, response)` at time `now`. */
  function Learn(entries: seq<Entry>, message: String, response: String, now: Timestamp): (r: seq<Entry>)
    ensures WellFormed(entries) ==> WellFormed(r)
    ensures |r| == |entries| || |r| == |entries| + 1
  {
    match FirstSimilar(entries, message)
    case Some(i) => entries[i := Bump(entries[i], now)]
    case None => entries + [NewEntry(|entries| + 1, message, response, now)]
  }

  /** Merge case: when some stored question scores above 0.7, the first such
      record, and only it, gains one use and a new `last_updated`; nothing is
      inserted and every other entry is unchanged. */
  lemma LearnMerges(entries: seq<Entry>, message: String, response: String, now: Timestamp, i: nat)
    requires i < |entries| && Score(message, entries[i]) > MergeThreshold
    requires forall j :: 0 <= j < i ==> Score(message, entries[j]) <= MergeThreshold
    ensures var r := Learn(entries, message, response, now);
      && |r| == |entries|
      && r[i].id == entries[i].id
      && r[i].qa == entries[i].qa.(count := entries[i].qa.count + 1, lastUpdated := now)
      && forall j :: 0 <= j < |r| && j != i ==> r[j] == entries[j]
  {
  }

  /** Insert case: when no stored question scores above 0.7, exactly one entry
      is appended, under id `qa_{n+1}`, holding the message and reply verbatim,
      one use and the message's keywords; existing entries are untouched. */
  lemma LearnInserts(entries: seq<Entry>, message: String, response: String, now: Timestamp)
    requires forall j :: 0 <= j < |entries| ==> Score(message, entries[j]) <= MergeThreshold
    ensures var r := Learn(entries, message, response, now);
      && |r| == |entries| + 1
      && r[..|entries|] == entries
      && r[|entries|].id == QaId(|entries| + 1)
      && r[|entries|].qa.question == message && r[|entries|].qa.response == response
      && r[|entries|].qa.count == 1 && r[|entries|].qa.keywords == ExtractKeywords(message)
  {
  }

  /** The sum of the use counts of all records. */
  function TotalUses(entries: seq<Entry>): nat {
    if entries == [] then 0 else TotalUses(entries[..|entries| - 1]) + entries[|entries| - 1].qa.count
  }

  lemma {:induction false} TotalUsesUpdate(entries: seq<Entry>, i: nat, e: Entry)
    requires i < |entries|
    ensures TotalUses(entries[i := e]) == TotalUses(entries) - entries[i].qa.count + e.qa.count
  {
    var n := |entries| - 1;
    if i < n {
      assert entries[i := e][..n] == entries[..n][i := e];
      TotalUsesUpdate(entries[..n], i, e);
    } else {
      assert entries[i := e][..n] == entries[..n];
    }
  }

  /** Every `add_conversation` adds exactly one use to the store, whether it
      merges or inserts. */
  lemma LearnAddsOneUse(entries: seq<Entry>, message: String, response: String, now: Timestamp)
    ensures TotalUses(Learn(entries, message, response, now)) == TotalUses(entries) + 1
  {
    match FirstSimilar(entries, message)
    case Some(i) =>
      TotalUsesUpdate(entries, i, Bump(entries[i], now));
    case None =>
      var r := entries + [NewEntry(|entries| + 1, message, response, now)];
      assert r[..|r| - 1] == entries;
  }

  /** Recording the same message twice in a row: the second call merges into
      the record the first call merged into or inserted, so the number of
      records stays where the first call left it. This needs the message to
      contain a word; `LearnBlankTwiceInserts` covers the other case. */
  lemma LearnTwiceMerges(entries: seq<Entry>, message: String, response1: String, response2: String,
                         now1: Timestamp, now2: Timestamp)
    requires Tokens(message) != {}
    ensures var once := Learn(entries, message, response1, now1);
      && FirstSimilar(once, message) ==
           Some(match FirstSimilar(entries, message) case Some(i) => i case None => |entries|)
      && |Learn(once, message, response2, now2)| == |once|
  {
    var once := Learn(entries, message, response1, now1);
    SimilaritySelf(message, message);
    match FirstSimilar(entries, message)
    case Some(i) =>
      assert forall j :: 0 <= j < i ==> once[j] == entries[j];
      assert once[i].qa.question == entries[i].qa.question;
      FirstSimilarAt(once, message, i);
    case None =>
      assert forall j :: 0 <= j < |entries| ==> once[j] == entries[j];
      assert once[|entries|].qa.question == message;
      FirstSimilarAt(once, message, |entries|);
  }

  /** A message without a word (empty or all whitespace) scores 0 against every
      record, so recording it twice inserts twice: the store grows by one on
      each call and never merges. */
  lemma LearnBlankTwiceInserts(entries: seq<Entry>, message: String, response1: String, response2: String,
                               now1: Timestamp, now2: Timestamp)
    requires Tokens(message) == {}
    ensures var once := Learn(entries, message, response1, now1);
      |Learn(once, message, response2, now2)| == |once| + 1
  {
  }

  /** The scores of `message` against the stored questions, in insertion order. */
  function Scores(entries: seq<Entry>, message: String): (r: seq<real>)
    ensures |r| == |entries|
    ensures forall i :: 0 <= i < |entries| ==> r[i] == Score(message, entries[i])
  {
    seq(|entries|, i requires 0 <= i < |entries| => Score(message, entries[i]))
  }

  /** The score a candidate must beat: the lookup threshold, or the score of the
      best candidate found so far. */
  function ScoreToBeat(scores: seq<real>, best: Option<nat>): real
    requires best.Some? ==> best.value < |scores|
  {
    match best
    case None => LookupThreshold
    case Some(k) => scores[k]
  }

  /** The index `get_learned_response` settles on, given the scores of the
      stored questions: scanning in order, a candidate replaces the current best
      when it scores strictly above the score to beat. */
  function BestIndex(scores: seq<real>): (r: Option<nat>)
    ensures r.Some? ==> r.value < |scores|
  {
    if scores == [] then None
    else
      var last := |scores| - 1;
      var prev := BestIndex(scores[..last]);
      if scores[last] > ScoreToBeat(scores, prev) then Some(last) else prev
  }

  /** One more score either takes over as the best or leaves the best as it was. */
  lemma BestIndexStep(scores: seq<real>, i: nat)
    requires i < |scores|
    ensures BestIndex(scores[..i]).Some? ==> BestIndex(scores[..i]).value < i
    ensures var prev := BestIndex(scores[..i]);
      BestIndex(scores[..i + 1]) == if scores[i] > ScoreToBeat(scores, prev) then Some(i) else prev
  {
    var next := scores[..i + 1];
    assert next[..i] == scores[..i];
    assert next[i] == scores[i];
    var prev := BestIndex(scores[..i]);
    assert prev.Some? ==> next[prev.value] == scores[prev.value];
  }

  /** `get_learned_response` finds nothing exactly when no stored question
      scores above 0.6; otherwise it finds one with the highest score, the
      earliest among equals. */
  lemma {:induction false} BestIndexIsBest(scores: seq<real>)
    ensures var r := BestIndex(scores);
      && (r.None? <==> forall j :: 0 <= j < |scores| ==> scores[j] <= LookupThreshold)
      && (r.Some? ==>
            && scores[r.value] > LookupThreshold
            && (forall j :: 0 <= j < |scores| ==> scores[j] <= scores[r.value])
            && (forall j :: 0 <= j < r.value ==> scores[j] < scores[r.value]))
  {
    if scores != [] {
      var last := |scores| - 1;
      var front := scores[..last];
      BestIndexIsBest(front);
      assert forall j :: 0 <= j < last ==> front[j] == scores[j];
    }
  }

  /** The record `get_learned_response` returns. */
  function LearnedResponse(entries: seq<Entry>, message: String): Option<QARecord> {
    match BestIndex(Scores(entries, message))
    case None => None
    case Some(k) => Some(entries[k].qa)
  }

  /** One row of `export_knowledge`: `{'Q': ..., 'A': ..., 'Uses': ...}`. */
  datatype ExportRow = ExportRow(q: String, a: String, uses: nat)

  /** The rows in insertion order, before sorting. */
  function Project(entries: seq<Entry>): (rows: seq<ExportRow>)
    ensures |rows| == |entries|
    ensures forall i :: 0 <= i < |entries| ==>
              rows[i] == ExportRow(entries[i].qa.question, entries[i].qa.response, entries[i].qa.count)
  {
    seq(|entries|, i requires 0 <= i < |entries| => ExportRow(entries[i].qa.question, entries[i].qa.response, entries[i].qa.count))
  }

  predicate SortedByUsesDesc(rows: seq<ExportRow>) {
    forall i, j :: 0 <= i < j < |rows| ==> rows[i].uses >= rows[j].uses
  }

  /** The rows with `u` uses, in their order. */
  function WithUses(rows: seq<ExportRow>, u: nat): seq<ExportRow> {
    if rows == [] then []
    else (if rows[0].uses == u then [rows[0]] else []) + WithUses(rows[1..], u)
  }

  lemma {:induction false} WithUsesAppend(a: seq<ExportRow>, b: seq<ExportRow>, u: nat)
    ensures WithUses(a + b, u) == WithUses(a, u) + WithUses(b, u)
  {
    if a != [] {
      WithUsesAppend(a[1..], b, u);
      var head := if a[0].uses == u then [a[0]] else [];
      calc {
        WithUses(a + b, u);
        { assert (a + b)[0] == a[0]; }
        head + WithUses((a + b)[1..], u);
        { assert (a + b)[1..] == a[1..] + b; }
        head + (WithUses(a[1..], u) + WithUses(b, u));
        (head + WithUses(a[1..], u)) + WithUses(b, u);
      }
    } else {
      assert a + b == b;
    }
  }

  lemma {:induction false} WithUsesNone(rows: seq<ExportRow>, u: nat)
    requires forall i :: 0 <= i < |rows| ==> rows[i].uses != u
    ensures WithUses(rows, u) == []
  {
    if rows != [] {
      WithUsesNone(rows[1..], u);
    }
  }

  /** A bound on the use counts carries over to any permutation. */
  lemma UsesBoundPermutation(t: seq<ExportRow>, s: seq<ExportRow>, bound: nat)
    requires multiset(t) == multiset(s)
    requires forall i :: 0 <= i < |s| ==> s[i].uses <= bound
    ensures forall i :: 0 <= i < |t| ==> t[i].uses <= bound
  {
    forall i | 0 <= i < |t| ensures t[i].uses <= bound {
      assert t[i] in multiset(s);
      var k :| 0 <= k < |s| && s[k] == t[i];
    }
  }

  /** A row with at least as many uses as every row of a sorted sequence may
      go in front of it. */
  lemma SortedCons(head: ExportRow, rows: seq<ExportRow>)
    requires SortedByUsesDesc(rows)
    requires forall i :: 0 <= i < |rows| ==> rows[i].uses <= head.uses
    ensures SortedByUsesDesc([head] + rows)
  {
    var r := [head] + rows;
    forall i, j | 0 <= i < j < |r| ensures r[i].uses >= r[j].uses {
      assert r[j] == rows[j - 1];
      if i > 0 {
        assert r[i] == rows[i - 1];
      }
    }
  }

  /** Places `x` after every leading row with at least as many uses. */
  function InsertByUses(x: ExportRow, rows: seq<ExportRow>): (r: seq<ExportRow>)
    ensures multiset(r) == multiset(rows) + multiset{x}
  {
    if rows == [] then [x]
    else if rows[0].uses >= x.uses then
      assert rows == [rows[0]] + rows[1..];
      [rows[0]] + InsertByUses(x, rows[1..])
    else
      [x] + rows
  }

  /** Inserting into a sorted sequence keeps it sorted. */
  lemma {:induction false} InsertByUsesSorted(x: ExportRow, rows: seq<ExportRow>)
    requires SortedByUsesDesc(rows)
    ensures SortedByUsesDesc(InsertByUses(x, rows))
  {
    if rows == [] {
      assert InsertByUses(x, rows) == [x];
    } else if rows[0].uses >= x.uses {
      var head, rest := rows[0], rows[1..];
      assert SortedByUsesDesc(rest);
      InsertByUsesSorted(x, rest);
      var tail := InsertByUses(x, rest);
      assert multiset(tail) == multiset(rest + [x]);
      assert forall i :: 0 <= i < |rest + [x]| ==> (rest + [x])[i].uses <= head.uses;
      UsesBoundPermutation(tail, rest + [x], head.uses);
      SortedCons(head, tail);
    } else {
      assert forall i :: 0 <= i < |rows| ==> rows[i].uses <= x.uses;
      SortedCons(x, rows);
    }
  }

  /** One step of `InsertByUsesStable`: `x` passes the first row. */
  lemma InsertByUsesStableStep(x: ExportRow, rows: seq<ExportRow>, u: nat, own: seq<ExportRow>)
    requires rows != [] && rows[0].uses >= x.uses
    requires WithUses(InsertByUses(x, rows[1..]), u) == WithUses(rows[1..], u) + own
    ensures WithUses(InsertByUses(x, rows), u) == WithUses(rows, u) + own
  {
    var head, rest := [rows[0]], rows[1..];
    var tail := InsertByUses(x, rest);
    assert InsertByUses(x, rows) == head + tail;
    calc {
      WithUses(head + tail, u);
      { WithUsesAppend(head, tail, u); }
      WithUses(head, u) + WithUses(tail, u);
      WithUses(head, u) + (WithUses(rest, u) + own);
      (WithUses(head, u) + WithUses(rest, u)) + own;
      { WithUsesAppend(head, rest, u); }
      WithUses(head + rest, u) + own;
      { assert head + rest == rows; }
      WithUses(rows, u) + own;
    }
  }

  /** Inserting keeps the order among rows of equal use count, `x` coming last. */
  lemma {:induction false} InsertByUsesStable(x: ExportRow, rows: seq<ExportRow>, u: nat)
    requires SortedByUsesDesc(rows)
    ensures WithUses(InsertByUses(x, rows), u) == WithUses(rows, u) + (if x.uses == u then [x] else [])
  {
    var own := if x.uses == u then [x] else [];
    assert WithUses([x], u) == own by {
      assert [x][1..] == [];
    }
    if rows == [] {
      assert InsertByUses(x, rows) == [x];
    } else if rows[0].uses >= x.uses {
      assert SortedByUsesDesc(rows[1..]);
      InsertByUsesStable(x, rows[1..], u);
      InsertByUsesStableStep(x, rows, u, own);
    } else {
      WithUsesAppend([x], rows, u);
      if x.uses == u {
        assert forall i :: 0 <= i < |rows| ==> rows[i].uses <= rows[0].uses;
        WithUsesNone(rows, u);
      }
    }
  }

  /** `sorted(rows, key=lambda x: x['Uses'], reverse=True)`, as an insertion
      sort that takes the rows in order. */
  function SortByUses(rows: seq<ExportRow>): (r: seq<ExportRow>)
    ensures SortedByUsesDesc(r)
    ensures multiset(r) == multiset(rows)
  {
    if rows == [] then []
    else
      var last := |rows| - 1;
      assert rows == rows[..last] + [rows[last]];
      var sorted := SortByUses(rows[..last]);
      InsertByUsesSorted(rows[last], sorted);
      InsertByUses(rows[last], sorted)
  }

  /** The sort is stable: the rows of each use count keep their relative order. */
  lemma {:induction false} SortByUsesStable(rows: seq<ExportRow>, u: nat)
    ensures WithUses(SortByUses(rows), u) == WithUses(rows, u)
  {
    if rows != [] {
      var last := |rows| - 1;
      var front, x := rows[..last], rows[last];
      var own := if x.uses == u then [x] else [];
      assert rows == front + [x];
      calc {
        WithUses(SortByUses(rows), u);
        WithUses(InsertByUses(x, SortByUses(front)), u);
        { InsertByUsesStable(x, SortByUses(front), u); }
        WithUses(SortByUses(front), u) + own;
        { SortByUsesStable(front, u); }
        WithUses(front, u) + own;
        { assert [x][1..] == []; }
        WithUses(front, u) + WithUses([x], u);
        { WithUsesAppend(front, [x], u); }
        WithUses(rows, u);
      }
    }
  }

  /** The answer of `get_stats`. */
  datatype Stats = Stats(totalLearnedQa: nat, totalMessages: nat, totalConversations: nat)

  /** The scan of `add_conversation`: the first stored record, in insertion
      order, whose question scores above 0.7, the loop stopping there. */
  method FindSimilar(entries: seq<Entry>, message: String) returns (found: Option<nat>)
    ensures found == FirstSimilar(entries, message)
  {
    var i := 0;
    while i < |entries|
      invariant 0 <= i <= |entries|
      invariant forall j :: 0 <= j < i ==> Score(message, entries[j]) <= MergeThreshold
    {
      if SimilarityScore(message, entries[i].qa.question) > MergeThreshold {
        FirstSimilarAt(entries, message, i);
        return Some(i);
      }
      i := i + 1;
    }
    FirstSimilarAt(entries, message, |entries|);
    return None;
  }

  /** The store: the `learned_qa` entries and the `total_messages` counter. */
  class KnowledgeBase {
    var learned: seq<Entry>
    var totalMessages: nat

    /** Ids are `qa_1` .. `qa_n` in order, every record was used at least once,
        and two messages were counted per use, since the store started empty. */
    ghost predicate Valid()
      reads this
    {
      WellFormed(learned) && totalMessages == 2 * TotalUses(learned)
    }

    /** The empty store the source creates when there is no data file. */
    constructor ()
      ensures Valid()
      ensures learned == [] && totalMessages == 0
    {
      learned := [];
      totalMessages := 0;
    }

    /** `add_conversation(user_message, bot_response)`, with the clock reading `now`. */
    method AddConversation(userMessage: String, botResponse: String, now: Timestamp)
      requires Valid()
      modifies this
      ensures Valid()
      ensures learned == Learn(old(learned), userMessage, botResponse, now)
      ensures totalMessages == old(totalMessages) + 2
    {
      ghost var before := learned;
      var similar := FindSimilar(learned, userMessage);
      match similar {
        case Some(i) =>
          learned := learned[i := Bump(learned[i], now)];
        case None =>
          var keywords := ExtractKeywords(userMessage);
          var qaId := QaId(|learned| + 1);
          learned := learned + [Entry(qaId, QARecord(userMessage, botResponse, keywords, 1, now, now))];
      }
      totalMessages := totalMessages + 2;
      LearnAddsOneUse(before, userMessage, botResponse, now);
    }

    /** `get_learned_response(user_message)`: the best stored record scoring
        above 0.6, found by one scan that changes nothing. */
    method GetLearnedResponse(userMessage: String) returns (best: Option<QARecord>)
      ensures best == LearnedResponse(learned, userMessage)
      ensures best.None? <==> forall j :: 0 <= j < |learned| ==> Score(userMessage, learned[j]) <= LookupThreshold
    {
      ghost var scores := Scores(learned, userMessage);
      var bestMatch: Option<QARecord> := None;
      ghost var bestIndex: Option<nat> := None;
      var bestScore := LookupThreshold;
      for i := 0 to |learned|
        invariant bestIndex == BestIndex(scores[..i])
        invariant bestIndex.Some? ==> bestIndex.value < i
        invariant bestScore == ScoreToBeat(scores, bestIndex)
        invariant bestMatch == if bestIndex.Some? then Some(learned[bestIndex.value].qa) else None
      {
        BestIndexStep(scores, i);
        var score := SimilarityScore(userMessage, learned[i].qa.question);
        assert score == scores[i];
        if score > bestScore {
          bestScore := score;
          bestMatch := Some(learned[i].qa);
          bestIndex := Some(i);
        }
      }
      assert scores[..|learned|] == scores;
      BestIndexIsBest(scores);
      best := bestMatch;
    }

    /** `export_knowledge()`: one row per record, most used first, records with
        equal use counts in insertion order. */
    function ExportKnowledge(): (rows: seq<ExportRow>)
      reads this
      ensures |rows| == |learned|
      ensures SortedByUsesDesc(rows)
      ensures multiset(rows) == multiset(Project(learned))
      ensures forall u :: WithUses(rows, u) == WithUses(Project(learned), u)
    {
      var rows := SortByUses(Project(learned));
      assert |rows| == |multiset(rows)|;
      assert forall u :: WithUses(rows, u) == WithUses(Project(learned), u) by {
        forall u { SortByUsesStable(Project(learned), u); }
      }
      rows
    }

    /** `get_stats()`: the number of keys, the message counter and the length of
        the never-filled `conversations` list. */
    function GetStats(): (s: Stats)
      reads this
      ensures Valid() ==> s.totalLearnedQa == |Ids(learned)|
      ensures Valid() ==> s.totalMessages == 2 * TotalUses(learned)
      ensures s.totalConversations == 0
    {
      KeysCount(learned);
      Stats(|learned|, totalMessages, 0)
    }
  }
}
