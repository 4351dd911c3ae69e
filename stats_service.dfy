/**
 * backend/app/services/stats.py: platform-wide counts and rates, per-user
 * statistics and the per-expert table. Rates are exact reals; the source
 * rounds them to two decimals for display.
 */
module StatsService {
  import opened Types
  import opened Strings
  import opened Store
  import opened AnnotationService

  /** Some record of the document is completed. */
  predicate HasCompleted(anns: seq<Annotation>, documentId: nat)
  {
    exists a :: a in anns && a.documentId == documentId && a.isCompleted
  }

  /**
   * The distinct ids of stored documents joined with at least one completed
   * record (`query(Document.id).join(Annotation).filter(...).distinct()`).
   */
  function CompletedDocumentIds(docs: seq<Document>, anns: seq<Annotation>): (r: set<nat>)
    ensures |r| <= |docs|
    ensures forall id :: id in r <==> (exists d :: d in docs && d.id == id) && HasCompleted(anns, id)
  {
    if docs == [] then {}
    else
      var rest := CompletedDocumentIds(docs[1..], anns);
      assert forall d :: d in docs <==> d == docs[0] || d in docs[1..];
      if HasCompleted(anns, docs[0].id) then {docs[0].id} + rest else rest
  }

  /** The number of records with a positive evaluation. */
  function PositiveCount(anns: seq<Annotation>): (r: nat)
    ensures r <= |anns|
  {
    if anns == [] then 0
    else (if anns[0].evaluation then 1 else 0) + PositiveCount(anns[1..])
  }

  /** Appending one record adds one to the count exactly when that record counts. */
  lemma {:induction false} PositiveCountSnoc(anns: seq<Annotation>, x: Annotation)
    ensures PositiveCount(anns + [x]) == PositiveCount(anns) + (if x.evaluation then 1 else 0)
  {
    if anns == [] {
      assert anns + [x] == [x] && [x][1..] == [];
    } else {
      assert (anns + [x])[0] == anns[0] && (anns + [x])[1..] == anns[1..] + [x];
      PositiveCountSnoc(anns[1..], x);
    }
  }

  /** The positions of positive records in a sequence with one more record at its end. */
  lemma PositivePositionsSnoc(anns: seq<Annotation>, x: Annotation)
    ensures (set i | 0 <= i < |anns + [x]| && (anns + [x])[i].evaluation)
         == (set i | 0 <= i < |anns| && anns[i].evaluation) + (if x.evaluation then {|anns|} else {})
  {
    var longer := anns + [x];
    forall i | 0 <= i < |anns|
      ensures longer[i] == anns[i]
    {
    }
  }

  /** The positive count is the number of positions holding a positive record. */
  lemma {:induction false} PositiveCountCounts(anns: seq<Annotation>)
    ensures PositiveCount(anns) == |set i | 0 <= i < |anns| && anns[i].evaluation|
  {
    var all := set i | 0 <= i < |anns| && anns[i].evaluation;
    if anns == [] {
      assert all == {};
    } else {
      var init, x := anns[..|anns| - 1], anns[|anns| - 1];
      assert anns == init + [x];
      PositiveCountSnoc(init, x);
      PositiveCountCounts(init);
      PositivePositionsSnoc(init, x);
    }
  }

  /** `num / den * 100`, or 0 when the denominator is 0. */
  function Rate(num: nat, den: nat): real
  {
    if den > 0 then num as real / den as real * 100.0 else 0.0
  }

  /** A rate of a part of a whole lies in [0, 100], is 0 for an empty whole and 100 for the whole itself. */
  lemma RateBounds(num: nat, den: nat)
    requires num <= den
    ensures 0.0 <= Rate(num, den) <= 100.0
    ensures den == 0 ==> Rate(num, den) == 0.0
    ensures den > 0 && num == den ==> Rate(num, den) == 100.0
  {
    if den > 0 {
      assert num as real / den as real <= 1.0;
    }
  }

  datatype AnnotationStats = AnnotationStats(
    totalDocuments: nat,
    annotatedDocuments: nat,
    positiveRate: real,
    completionRate: real)

  /** `get_annotation_stats`. */
  function GetAnnotationStats(docs: seq<Document>, anns: seq<Annotation>): (r: AnnotationStats)
    ensures r.totalDocuments == |docs|
    ensures r.annotatedDocuments == |CompletedDocumentIds(docs, anns)| <= r.totalDocuments
    ensures r.positiveRate == Rate(PositiveCount(anns), |anns|)
    ensures r.completionRate == Rate(r.annotatedDocuments, r.totalDocuments)
    ensures 0.0 <= r.positiveRate <= 100.0 && 0.0 <= r.completionRate <= 100.0
    ensures anns == [] ==> r.positiveRate == 0.0
    ensures docs == [] ==> r.annotatedDocuments == 0 && r.completionRate == 0.0
    ensures docs == [] && anns == [] ==> r == AnnotationStats(0, 0, 0.0, 0.0)
  {
    var totalDocuments := |docs|;
    var annotatedDocuments := |CompletedDocumentIds(docs, anns)|;
    var positiveAnnotations := PositiveCount(anns);
    var totalAnnotations := |anns|;
    RateBounds(positiveAnnotations, totalAnnotations);
    RateBounds(annotatedDocuments, totalDocuments);
    AnnotationStats(totalDocuments, annotatedDocuments,
                    Rate(positiveAnnotations, totalAnnotations),
                    Rate(annotatedDocuments, totalDocuments))
  }

  /** Every stored document whose derived status is "completed" is counted as annotated. */
  lemma CompletedStatusIsCounted(docs: seq<Document>, anns: seq<Annotation>, d: Document)
    requires d in docs && DerivedStatus(anns, d.id) == Completed
    ensures d.id in CompletedDocumentIds(docs, anns)
  {
    DerivedStatusMeaning(anns, d.id);
  }

  /**
   * The converse fails: a document with one completed and one incomplete
   * record is counted as annotated while its derived status is "in_progress".
   */
  lemma CountedButInProgress()
    ensures var d := Document(1, "t", "s", "g", InProgress, None, 1, 1);
      var anns := [Annotation(1, 1, 7, true, Encoded([]), 0, true),
                   Annotation(2, 1, 8, false, Encoded([]), 0, false)];
      d.id in CompletedDocumentIds([d], anns) && DerivedStatus(anns, d.id) == InProgress
  {
    var d := Document(1, "t", "s", "g", InProgress, None, 1, 1);
    var anns := [Annotation(1, 1, 7, true, Encoded([]), 0, true),
                 Annotation(2, 1, 8, false, Encoded([]), 0, false)];
    assert anns[0] in anns;
    assert anns[1] in anns && !anns[1].isCompleted;
    DerivedStatusMeaning(anns, d.id);
  }

  /** The sum of the records' time (`func.sum(...) or 0`). */
  function TotalTime(anns: seq<Annotation>): int
  {
    if anns == [] then 0 else anns[0].timeSpent + TotalTime(anns[1..])
  }

  /** The total time of records that never go below zero is itself never below zero. */
  lemma {:induction false} TotalTimeNonNegative(anns: seq<Annotation>)
    requires forall a :: a in anns ==> a.timeSpent >= 0
    ensures TotalTime(anns) >= 0
  {
    if anns != [] {
      TotalTimeNonNegative(anns[1..]);
    }
  }

  datatype UserStats = UserStats(completedAnnotations: nat, positiveRate: real, totalTimeMinutes: real)

  /** `get_user_stats`: counts over that user's records only. */
  function GetUserStats(anns: seq<Annotation>, userId: nat): (r: UserStats)
    ensures var mine := OfAnnotator(anns, userId);
      && r.completedAnnotations == CountCompleted(mine) <= |mine|
      && r.positiveRate == Rate(PositiveCount(mine), |mine|)
      && 0.0 <= r.positiveRate <= 100.0
      && r.totalTimeMinutes * 60.0 == TotalTime(mine) as real
      && (mine == [] ==> r == UserStats(0, 0.0, 0.0))
  {
    var mine := OfAnnotator(anns, userId);
    CountCompletedAll(mine);
    RateBounds(PositiveCount(mine), |mine|);
    UserStats(CountCompleted(mine), Rate(PositiveCount(mine), |mine|), TotalTime(mine) as real / 60.0)
  }

  /** The expert users, in store order (`filter(User.role == "expert")`). */
  function Experts(users: seq<User>): (r: seq<User>)
    ensures forall u :: u in r <==> u in users && u.role == Expert
  {
    if users == [] then []
    else if users[0].role == Expert then [users[0]] + Experts(users[1..])
    else Experts(users[1..])
  }

  /** One unfolding of `Experts` on a sequence with a given first element. */
  lemma ExpertsCons(x: User, s: seq<User>)
    ensures Experts([x] + s) == (if x.role == Expert then [x] else []) + Experts(s)
  {
    assert ([x] + s)[0] == x && ([x] + s)[1..] == s;
  }

  /** The experts keep their store order. */
  lemma {:induction false} ExpertsInOrder(a: seq<User>, b: seq<User>)
    ensures Experts(a + b) == Experts(a) + Experts(b)
    ensures |a| == 1 ==> Experts(a) == (if a[0].role == Expert then a else [])
  {
    if a == [] {
      assert a + b == b;
    } else {
      var t, h := a[1..], if a[0].role == Expert then [a[0]] else [];
      assert a == [a[0]] + t && a + b == [a[0]] + (t + b);
      calc {
        Experts(a + b);
      == { ExpertsCons(a[0], t + b); }
        h + Experts(t + b);
      == { ExpertsInOrder(t, b); }
        h + (Experts(t) + Experts(b));
      == { AppendAssoc(h, Experts(t), Experts(b)); }
        (h + Experts(t)) + Experts(b);
      == { ExpertsCons(a[0], t); }
        Experts(a) + Experts(b);
      }
      if |a| == 1 {
        assert t == [];
      }
    }
  }

  datatype UserStatsRow = UserStatsRow(userId: nat, username: string, fullName: Option<string>, stats: UserStats)

  /** `get_all_user_stats`: one row per expert user, whether or not that user has records. */
  method GetAllUserStats(db: Db) returns (result: seq<UserStatsRow>)
    ensures |result| == |Experts(db.users)|
    ensures forall i :: 0 <= i < |result| ==>
      var u := Experts(db.users)[i];
      result[i] == UserStatsRow(u.id, u.username, u.fullName, GetUserStats(db.annotations, u.id))
    ensures forall u :: u in db.users && u.role == Expert ==>
      exists i :: 0 <= i < |result| && result[i].userId == u.id && result[i].username == u.username
  {
    var users := Experts(db.users);
    result := [];
    for k := 0 to |users|
      invariant |result| == k
      invariant forall i :: 0 <= i < k ==>
        result[i] == UserStatsRow(users[i].id, users[i].username, users[i].fullName, GetUserStats(db.annotations, users[i].id))
    {
      var user := users[k];
      var stats := GetUserStats(db.annotations, user.id);
      result := result + [UserStatsRow(user.id, user.username, user.fullName, stats)];
    }
    forall u | u in db.users && u.role == Expert
      ensures exists i :: 0 <= i < |result| && result[i].userId == u.id && result[i].username == u.username
    {
      var i :| 0 <= i < |users| && users[i] == u;
      assert result[i].userId == u.id;
    }
  }
}
