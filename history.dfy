/** The bounded answer history: the most recent results, newest first. */
module History {
  import opened Jobs

  const Capacity: nat := 10

  /** `answers.unshift(result)`, then one `answers.pop()` when the array has grown past the capacity. */
  function Insert(answers: seq<AnswerRecord>, rec: AnswerRecord): (r: seq<AnswerRecord>)
    ensures |r| > 0 && r[0] == rec
    ensures |r| == if |answers| < Capacity then |answers| + 1 else |answers|
    ensures r[1..] == answers[..|r| - 1]
  {
    var a := [rec] + answers;
    if |a| > Capacity then a[..|a| - 1] else a
  }

  /** The first `n` elements, or all of them when there are fewer. */
  function Take<T>(s: seq<T>, n: nat): (r: seq<T>)
    ensures |r| == if |s| < n then |s| else n
    ensures r == s[..|r|]
  {
    if |s| < n then s else s[..n]
  }

  /** The new record comes first; behind it the previous history, less its oldest entry when it was full. */
  lemma InsertFront(answers: seq<AnswerRecord>, rec: AnswerRecord)
    requires |answers| <= Capacity
    ensures var r := Insert(answers, rec);
      && |r| <= Capacity
      && |r| > 0 && r[0] == rec
      && r[1..] == (if |answers| == Capacity then answers[..Capacity - 1] else answers)
  {
  }

  /** Inserting into a full history drops exactly its oldest entry. */
  lemma InsertEvictsOldest(answers: seq<AnswerRecord>, rec: AnswerRecord)
    requires |answers| == Capacity
    ensures Insert(answers, rec) == [rec] + answers[..Capacity - 1]
  {
  }

  /** GET /api/v1/qa: the history unfiltered, cut to its first ten entries. */
  function Listing(answers: seq<AnswerRecord>): (r: seq<AnswerRecord>)
    ensures |r| <= Capacity
    ensures |answers| <= Capacity ==> r == answers
    ensures |answers| > Capacity ==> r == answers[..Capacity]
  {
    Take(answers, Capacity)
  }

  /** Insertions of `recs`, in order. */
  function InsertAll(answers: seq<AnswerRecord>, recs: seq<AnswerRecord>): seq<AnswerRecord>
    decreases |recs|
  {
    if recs == [] then answers else InsertAll(Insert(answers, recs[0]), recs[1..])
  }

  function Reversed<T>(s: seq<T>): (r: seq<T>)
    ensures |r| == |s|
    ensures forall i | 0 <= i < |s| :: r[i] == s[|s| - 1 - i]
  {
    if s == [] then [] else Reversed(s[1..]) + [s[0]]
  }

  /**
   * Eviction depends on insertion order alone: after any run of insertions
   * the history is the ten newest records, newest first, followed by what
   * is left of the old history.
   */
  lemma {:induction false} InsertAllKeepsNewest(answers: seq<AnswerRecord>, recs: seq<AnswerRecord>)
    requires |answers| <= Capacity
    ensures InsertAll(answers, recs) == Take(Reversed(recs) + answers, Capacity)
    decreases |recs|
  {
    if recs != [] {
      var h := Insert(answers, recs[0]);
      var rr := Reversed(recs[1..]);
      InsertIsTake(answers, recs[0]);
      InsertFront(answers, recs[0]);
      calc {
        InsertAll(answers, recs);
        InsertAll(h, recs[1..]);
        { InsertAllKeepsNewest(h, recs[1..]); }
        Take(rr + h, Capacity);
        Take(rr + Take([recs[0]] + answers, Capacity), Capacity);
        { TakeOfTake(rr, [recs[0]] + answers, Capacity); }
        Take(rr + ([recs[0]] + answers), Capacity);
        { assert rr + ([recs[0]] + answers) == (rr + [recs[0]]) + answers; }
        Take(Reversed(recs) + answers, Capacity);
      }
    }
  }

  lemma InsertIsTake(answers: seq<AnswerRecord>, rec: AnswerRecord)
    requires |answers| <= Capacity
    ensures Insert(answers, rec) == Take([rec] + answers, Capacity)
  {
  }

  lemma TakeOfTake<T>(a: seq<T>, b: seq<T>, n: nat)
    ensures Take(a + Take(b, n), n) == Take(a + b, n)
  {
  }
}
