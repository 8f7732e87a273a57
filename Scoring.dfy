/**
 * calculateScores: for each category a frequency table of the normalised
 * answers (lower-cased, then trimmed, empty ones skipped), then for each
 * player 10 points per category whose answer is unique in its table, 5 per
 * shared one, and nothing for an answer that does not begin with the round letter.
 */
module Scoring {
  import opened Text

  const Categories: seq<string> := ["Name", "Place", "Animal", "Thing"]
  const UniquePoints: nat := 10
  const SharedPoints: nat := 5

  /** One player's submitted record: category to free text (a category may be missing). */
  type Answers = map<string, string>

  /** Everything loaded for a room: player id to that player's record. */
  type AnswerTable = map<string, Answers>

  /** `playerAnswers[category] ? playerAnswers[category].toLowerCase().trim() : ''`. */
  function Normalised(ans: Answers, c: string): string {
    if c in ans && ans[c] != "" then Trim(ToLower(ans[c])) else ""
  }

  /** Category c of every record, normalised: the values the frequency table of c counts. */
  function Column(all: AnswerTable, c: string): map<string, string> {
    map p | p in all :: Normalised(all[p], c)
  }

  /** The players among `ids` whose entry in the column is a. */
  function Holders(col: map<string, string>, ids: set<string>, a: string): set<string>
    requires ids <= col.Keys
  {
    set p | p in ids && col[p] == a
  }

  /** The non-empty entries of the column among `ids`. */
  function Submitted(col: map<string, string>, ids: set<string>): set<string>
    requires ids <= col.Keys
  {
    set p | p in ids && col[p] != "" :: col[p]
  }

  /** The frequency table after visiting the records of `ids`, in whatever order. */
  function TallyOver(col: map<string, string>, ids: set<string>): map<string, nat>
    requires ids <= col.Keys
  {
    map a | a in Submitted(col, ids) :: |Holders(col, ids, a)|
  }

  /** How many entries of the column are a. */
  function Count(col: map<string, string>, a: string): nat {
    |Holders(col, col.Keys, a)|
  }

  /** The scoring guard: non-empty, a round letter is set, and the answer begins with it (lower-cased). */
  predicate Matches(a: string, letter: string) {
    a != "" && letter != "" && StartsWith(a, ToLower(letter))
  }

  /** What player pid earns for category c. */
  function Points(all: AnswerTable, letter: string, c: string, pid: string): nat
    requires pid in all
  {
    var col := Column(all, c);
    var a := col[pid];
    if Matches(a, letter) then (if Count(col, a) == 1 then UniquePoints else SharedPoints) else 0
  }

  /** The running `score` after the categories in cats, in order. */
  function ScoreOver(all: AnswerTable, letter: string, pid: string, cats: seq<string>): int
    requires pid in all
  {
    if cats == [] then 0
    else ScoreOver(all, letter, pid, cats[..|cats| - 1]) + Points(all, letter, cats[|cats| - 1], pid)
  }

  function PlayerScore(all: AnswerTable, letter: string, pid: string): int
    requires pid in all
  {
    ScoreOver(all, letter, pid, Categories)
  }

  /** The `newScores` object calculateScores produces. */
  function ScoreTable(all: AnswerTable, letter: string): map<string, int> {
    map p | p in all :: PlayerScore(all, letter, p)
  }

  lemma HoldersStep(col: map<string, string>, ids: set<string>, p: string, x: string)
    requires ids <= col.Keys && p in col && p !in ids
    ensures |Holders(col, ids + {p}, x)| == |Holders(col, ids, x)| + (if x == col[p] then 1 else 0)
  {
    assert p !in Holders(col, ids, x);
    assert Holders(col, ids + {p}, x) == Holders(col, ids, x) + (if x == col[p] then {p} else {});
  }

  /** For a non-empty answer: it is in the table exactly when somebody visited gave it. */
  lemma SubmittedHolders(col: map<string, string>, ids: set<string>, x: string)
    requires ids <= col.Keys && x != ""
    ensures x in Submitted(col, ids) <==> Holders(col, ids, x) != {}
  {
    if x in Submitted(col, ids) {
      var q :| q in ids && col[q] != "" && col[q] == x;
      assert q in Holders(col, ids, x);
    }
    if Holders(col, ids, x) != {} {
      var q :| q in Holders(col, ids, x);
      assert col[q] == x;
    }
  }

  lemma SubmittedStep(col: map<string, string>, ids: set<string>, p: string)
    requires ids <= col.Keys && p in col && p !in ids
    ensures Submitted(col, ids + {p}) == Submitted(col, ids) + (if col[p] == "" then {} else {col[p]})
  {
  }

  /** Visiting one more record adds one to its answer's count, or nothing for an empty answer. */
  lemma TallyStep(col: map<string, string>, ids: set<string>, p: string)
    requires ids <= col.Keys && p in col && p !in ids
    ensures var a := col[p];
            var t := TallyOver(col, ids);
            TallyOver(col, ids + {p}) == if a == "" then t else t[a := (if a in t then t[a] else 0) + 1]
  {
    var a := col[p];
    var t := TallyOver(col, ids);
    var t' := TallyOver(col, ids + {p});
    var u := if a == "" then t else t[a := (if a in t then t[a] else 0) + 1];
    SubmittedStep(col, ids, p);
    assert t'.Keys == u.Keys;
    forall x | x in t' ensures t'[x] == u[x] {
      HoldersStep(col, ids, p, x);
      if x == a {
        SubmittedHolders(col, ids, a);
      }
    }
  }

  /** The table over `ids` does not depend on entries outside `ids`. */
  lemma TallyFrame(col: map<string, string>, ids: set<string>, p: string, a: string)
    requires ids <= col.Keys && p !in ids
    ensures TallyOver(col[p := a], ids) == TallyOver(col, ids)
  {
    var col' := col[p := a];
    assert Submitted(col', ids) == Submitted(col, ids);
    forall x ensures Holders(col', ids, x) == Holders(col, ids, x) { }
  }

  /** One iteration of the counting loop: the table of the visited records, bumped at the new answer. */
  lemma VisitStep(seen: map<string, string>, p: string, a: string)
    requires p !in seen
    ensures var t := TallyOver(seen, seen.Keys);
      TallyOver(seen[p := a], seen.Keys + {p}) == if a == "" then t else t[a := (if a in t then t[a] else 0) + 1]
  {
    TallyStep(seen[p := a], seen.Keys, p);
    TallyFrame(seen, seen.Keys, p, a);
  }

  /** A column built record by record is the category's column once every record is in. */
  lemma ColumnComplete(all: AnswerTable, c: string, seen: map<string, string>)
    requires seen.Keys == all.Keys
    requires forall q {:trigger Normalised(all[q], c)} :: q in seen ==> Normalised(all[q], c) == seen[q]
    ensures seen == Column(all, c)
  {
    forall q | q in seen ensures seen[q] == Column(all, c)[q] {
      assert Normalised(all[q], c) == seen[q];
    }
  }

  /** The counting pass for one category: the records are visited in an arbitrary order. */
  method CountCategory(all: AnswerTable, c: string) returns (table: map<string, nat>)
    ensures table == TallyOver(Column(all, c), all.Keys)
  {
    ghost var seen: map<string, string> := map[];
    table := map[];
    var left := all.Keys;
    while left != {}
      invariant left <= all.Keys && seen.Keys == all.Keys - left
      invariant forall q {:trigger Normalised(all[q], c)} :: q in seen ==> Normalised(all[q], c) == seen[q]
      invariant table == TallyOver(seen, seen.Keys)
      decreases left
    {
      var pid :| pid in left;
      var a := Normalised(all[pid], c);
      if a != "" {
        table := table[a := (if a in table then table[a] else 0) + 1];
      }
      VisitStep(seen, pid, a);
      assert seen[pid := a].Keys == seen.Keys + {pid};
      assert table == TallyOver(seen[pid := a], seen.Keys + {pid});
      seen := seen[pid := a];
      left := left - {pid};
    }
    ColumnComplete(all, c, seen);
  }

  /** The counting pass: one frequency table per category. */
  method CountAnswers(all: AnswerTable) returns (counts: map<string, map<string, nat>>)
    ensures forall k :: 0 <= k < |Categories| ==>
      Categories[k] in counts && counts[Categories[k]] == TallyOver(Column(all, Categories[k]), all.Keys)
  {
    counts := map[];
    CategoriesDistinct();
    for k := 0 to |Categories|
      invariant forall j :: 0 <= j < k ==>
        Categories[j] in counts && counts[Categories[j]] == TallyOver(Column(all, Categories[j]), all.Keys)
    {
      var table := CountCategory(all, Categories[k]);
      counts := counts[Categories[k] := table];
    }
  }

  /** What the frequency table of c says a player's answer is worth. */
  lemma PointsFromTable(all: AnswerTable, letter: string, c: string, pid: string, t: map<string, nat>)
    requires pid in all && t == TallyOver(Column(all, c), all.Keys)
    ensures var a := Normalised(all[pid], c);
      Points(all, letter, c, pid) ==
        if Matches(a, letter) then (if a in t && t[a] == 1 then UniquePoints else SharedPoints) else 0
    ensures Matches(Normalised(all[pid], c), letter) ==> Normalised(all[pid], c) in t
  {
    var col := Column(all, c);
    var a := Normalised(all[pid], c);
    assert col.Keys == all.Keys;
    assert col[pid] == a;
    if a != "" {
      TallyCount(col, pid);
    }
  }

  /** Over the whole column, the table holds every non-empty entry with its count. */
  lemma TallyCount(col: map<string, string>, p: string)
    requires p in col && col[p] != ""
    ensures col[p] in TallyOver(col, col.Keys) && TallyOver(col, col.Keys)[col[p]] == Count(col, col[p])
  {
    assert col[p] in Submitted(col, col.Keys);
  }

  /** The inner `forEach` over the categories: one player's total, read from the frequency tables. */
  method PlayerTotal(all: AnswerTable, letter: string, counts: map<string, map<string, nat>>, pid: string)
    returns (score: int)
    requires pid in all
    requires forall k :: 0 <= k < |Categories| ==>
      Categories[k] in counts && counts[Categories[k]] == TallyOver(Column(all, Categories[k]), all.Keys)
    ensures score == PlayerScore(all, letter, pid)
  {
    score := 0;
    for k := 0 to |Categories|
      invariant score == ScoreOver(all, letter, pid, Categories[..k])
    {
      var c := Categories[k];
      var a := Normalised(all[pid], c);
      PointsFromTable(all, letter, c, pid, counts[c]);
      if a != "" && letter != "" && StartsWith(a, ToLower(letter)) {
        var count := counts[c][a];
        score := score + (if count == 1 then UniquePoints else SharedPoints);
      }
      assert Categories[..k + 1][..k] == Categories[..k];
    }
    assert Categories[..|Categories|] == Categories;
  }

  /**
   * calculateScores: the score table, whichever order the records are visited in
   * (both passes pick the next record arbitrarily, and the result is fixed by the input).
   */
  method CalculateScores(all: AnswerTable, letter: string) returns (scores: map<string, int>)
    ensures scores == ScoreTable(all, letter)
  {
    var counts := CountAnswers(all);
    scores := map[];
    var left := all.Keys;
    while left != {}
      invariant left <= all.Keys
      invariant scores == map p | p in all.Keys - left :: PlayerScore(all, letter, p)
      decreases left
    {
      var pid :| pid in left;
      var score := PlayerTotal(all, letter, counts, pid);
      scores := scores[pid := score];
      left := left - {pid};
    }
  }

  lemma CategoriesDistinct()
    ensures forall i, j :: 0 <= i < j < |Categories| ==> Categories[i] != Categories[j]
  {
    assert Categories[0][0] == 'N' && Categories[1][0] == 'P' && Categories[2][0] == 'A' && Categories[3][0] == 'T';
  }

  /** A player's own answer is in its table: every counted answer has count at least one. */
  lemma CountPositive(all: AnswerTable, c: string, pid: string)
    requires pid in all
    ensures Count(Column(all, c), Normalised(all[pid], c)) >= 1
  {
    var col := Column(all, c);
    var h := Holders(col, col.Keys, Normalised(all[pid], c));
    assert pid in h;
  }

  /** The count is one exactly when nobody else gave the same normalised answer. */
  lemma UniqueIffAlone(all: AnswerTable, c: string, pid: string)
    requires pid in all
    ensures var a := Normalised(all[pid], c);
      Count(Column(all, c), a) == 1 <==> forall q :: q in all && q != pid ==> Normalised(all[q], c) != a
  {
    var col := Column(all, c);
    var a := Normalised(all[pid], c);
    var h := Holders(col, col.Keys, a);
    assert pid in h;
    if forall q :: q in all && q != pid ==> Normalised(all[q], c) != a {
      assert h == {pid};
    } else {
      var q :| q in all && q != pid && Normalised(all[q], c) == a;
      assert q in h;
      assert h == {pid, q} + (h - {pid, q});
      assert |h| == |{pid, q}| + |h - {pid, q}|;
    }
  }

  /**
   * The scoring rule for one player and one category: 10 for a letter-matching
   * answer nobody else gave, 5 for a letter-matching answer someone else also
   * gave, and 0 for an empty, missing or non-matching answer, whatever its count.
   */
  lemma PointsRule(all: AnswerTable, letter: string, c: string, pid: string)
    requires pid in all
    ensures var a := Normalised(all[pid], c);
      && (Points(all, letter, c, pid) == UniquePoints <==>
            Matches(a, letter) && forall q :: q in all && q != pid ==> Normalised(all[q], c) != a)
      && (Points(all, letter, c, pid) == SharedPoints <==>
            Matches(a, letter) && exists q :: q in all && q != pid && Normalised(all[q], c) == a)
      && (Points(all, letter, c, pid) == 0 <==> !Matches(a, letter))
  {
    UniqueIffAlone(all, c, pid);
  }

  /** Two players who gave the same letter-matching answer both earn 5 for it. */
  lemma SharedAnswerScoresBoth(all: AnswerTable, letter: string, c: string, p: string, q: string)
    requires p in all && q in all && p != q
    requires Normalised(all[p], c) == Normalised(all[q], c) && Matches(Normalised(all[p], c), letter)
    ensures Points(all, letter, c, p) == SharedPoints && Points(all, letter, c, q) == SharedPoints
  {
    PointsRule(all, letter, c, p);
    PointsRule(all, letter, c, q);
  }

  /** Each category adds 0, 5 or 10, so the running score stays within 0 and 10 per category. */
  lemma {:induction false} ScoreBounds(all: AnswerTable, letter: string, pid: string, cats: seq<string>)
    requires pid in all
    ensures 0 <= ScoreOver(all, letter, pid, cats) <= UniquePoints * |cats|
  {
    if cats != [] {
      ScoreBounds(all, letter, pid, cats[..|cats| - 1]);
    }
  }

  /** With no round letter set, nobody scores. */
  lemma {:induction false} NoLetterNoScore(all: AnswerTable, pid: string, cats: seq<string>)
    requires pid in all
    ensures ScoreOver(all, "", pid, cats) == 0
  {
    if cats != [] {
      NoLetterNoScore(all, pid, cats[..|cats| - 1]);
    }
  }

  /** A record holding no answer for any category scores nothing. */
  lemma {:induction false} BlankRecordNoScore(all: AnswerTable, letter: string, pid: string, cats: seq<string>)
    requires pid in all && forall c :: c in cats ==> Normalised(all[pid], c) == ""
    ensures ScoreOver(all, letter, pid, cats) == 0
  {
    if cats != [] {
      assert forall c :: c in cats[..|cats| - 1] ==> c in cats;
      BlankRecordNoScore(all, letter, pid, cats[..|cats| - 1]);
    }
  }

  /** The score table has one entry per loaded record, each between 0 and 40. */
  lemma ScoreTableShape(all: AnswerTable, letter: string)
    ensures ScoreTable(all, letter).Keys == all.Keys
    ensures forall p :: p in ScoreTable(all, letter) ==> 0 <= ScoreTable(all, letter)[p] <= 40
    ensures letter == "" ==> forall p :: p in ScoreTable(all, letter) ==> ScoreTable(all, letter)[p] == 0
  {
    forall p | p in all ensures 0 <= PlayerScore(all, letter, p) <= 40 {
      ScoreBounds(all, letter, p, Categories);
    }
    if letter == "" {
      forall p | p in all ensures PlayerScore(all, letter, p) == 0 {
        NoLetterNoScore(all, p, Categories);
      }
    }
  }

  /** A category the record leaves out earns nothing. */
  lemma MissingCategoryNoPoints(all: AnswerTable, letter: string, c: string, pid: string)
    requires pid in all && c !in all[pid]
    ensures Points(all, letter, c, pid) == 0
  {
    assert Column(all, c)[pid] == "";
  }

  /**
   * The counting tables are plain JavaScript objects. The normalised answers
   * "constructor" and "__proto__" name members every such object inherits, so
   * `(answerCounts[category][answer] || 0) + 1` starts from that member rather
   * than from 0 and the looked-up count is never the number 1.
   */
  const InheritedKeys: set<string> := {"constructor", "__proto__"}

  /** What a player earns for c with the counts looked up as the source does. */
  function PointsAsWritten(all: AnswerTable, letter: string, c: string, pid: string): nat
    requires pid in all
  {
    var a := Normalised(all[pid], c);
    if Matches(a, letter) then
      (if a !in InheritedKeys && Count(Column(all, c), a) == 1 then UniquePoints else SharedPoints)
    else 0
  }

  /**
   * The lone player who answers Thing with "Constructor" in a round of letter C
   * gave a unique answer, which the rule prices at 10, yet the source awards 5.
   */
  lemma InheritedKeyScoresShared(all: AnswerTable, pid: string)
    requires all.Keys == {pid}
    requires Normalised(all[pid], "Thing") == "constructor"
    ensures Points(all, "C", "Thing", pid) == UniquePoints
    ensures PointsAsWritten(all, "C", "Thing", pid) == SharedPoints
  {
    assert ToLower("C") == "c";
    var col := Column(all, "Thing");
    assert Holders(col, col.Keys, "constructor") == {pid};
  }

  /** The two scorings agree on every answer that is not an inherited member name. */
  lemma AsWrittenAgreesElsewhere(all: AnswerTable, letter: string, c: string, pid: string)
    requires pid in all && Normalised(all[pid], c) !in InheritedKeys
    ensures PointsAsWritten(all, letter, c, pid) == Points(all, letter, c, pid)
  {
  }
}
