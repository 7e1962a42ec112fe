/**
 * The POST handler of app/api/scores/route.ts: payload validation, name
 * sanitisation, the new-personal-best test and the dedupe-and-rank step.
 * The database is not modelled; each query's result set is an input.
 */
module ScoresRoute {
  import opened Options
  import opened JsText

  /**
   * A field of the parsed JSON body as the handler sees it; `Undefined` is a
   * missing field. For numbers, arrays and objects `text` stands for what
   * `String(v)` renders.
   */
  datatype Value =
    | Undefined
    | Null
    | Bool(b: bool)
    | Number(n: real, text: JsString)
    | Str(s: JsString)
    | Compound(text: JsString)

  /** JavaScript truthiness (JSON has no NaN). */
  predicate Truthy(v: Value) {
    match v
    case Undefined => false
    case Null => false
    case Bool(b) => b
    case Number(n, _) => n != 0.0
    case Str(s) => s != []
    case Compound(_) => true
  }

  /** `String(v)`. */
  function StringOf(v: Value): JsString {
    match v
    case Undefined => [0x75, 0x6E, 0x64, 0x65, 0x66, 0x69, 0x6E, 0x65, 0x64]   // "undefined"
    case Null => [0x6E, 0x75, 0x6C, 0x6C]                                       // "null"
    case Bool(b) => if b then [0x74, 0x72, 0x75, 0x65] else [0x66, 0x61, 0x6C, 0x73, 0x65]
    case Number(_, text) => text
    case Str(s) => s
    case Compound(text) => text
  }

  /** The default of the `game` field: "papope". */
  const DefaultGame: JsString := [0x70, 0x61, 0x70, 0x6F, 0x70, 0x65]

  const MaxNameLength: nat := 64

  /**
   * `String(playerName).slice(0, 64).trim()`: at most 64 code units with no
   * white space at either end (Trim: a contiguous piece of the first 64), unchanged by a second trim, and empty exactly when those 64 are all
   * white space.
   */
  function Sanitize(name: JsString): (r: JsString)
    ensures |r| <= MaxNameLength
    ensures r == [] <==> AllWhiteSpace(Slice(name, MaxNameLength))
    ensures r != [] ==> !IsWhiteSpace(r[0]) && !IsWhiteSpace(r[|r| - 1])
    ensures Trim(r) == r
  {
    var t := Slice(name, MaxNameLength);
    var r := Trim(t);
    assert r == [] <==> AllWhiteSpace(t) by { TrimEmptyIff(t); }
    assert Trim(r) == r by { TrimIdempotent(t); }
    r
  }

  datatype Body = Body(playerName: Value, score: Value, game: Value)

  /** A validated submission. */
  datatype Payload = Payload(playerName: JsString, score: real, game: Value)

  datatype Rejection = InvalidPayload | NameRequired

  /** The `game = "papope"` default of the destructuring: it applies to a missing field only. */
  function GameOf(g: Value): (r: Value)
    ensures g.Undefined? ==> r == Str(DefaultGame)
    ensures !g.Undefined? ==> r == g
  {
    if g.Undefined? then Str(DefaultGame) else g
  }

  /** The two 400 checks of the handler, in their order. */
  function Validate(b: Body): (r: Result<Payload, Rejection>)
    ensures r == Err(InvalidPayload) <==> !Truthy(b.playerName) || !b.score.Number?
    ensures r == Err(NameRequired) <==>
      Truthy(b.playerName) && b.score.Number? && AllWhiteSpace(Slice(StringOf(b.playerName), MaxNameLength))
    ensures r.Ok? ==>
      && b.score.Number?
      && r.value == Payload(Sanitize(StringOf(b.playerName)), b.score.n, GameOf(b.game))
      && r.value.playerName != []
      && |r.value.playerName| <= MaxNameLength
  {
    if !Truthy(b.playerName) || !b.score.Number? then Err(InvalidPayload)
    else
      var name := Sanitize(StringOf(b.playerName));
      if name == [] then Err(NameRequired)
      else Ok(Payload(name, b.score.n, GameOf(b.game)))
  }

  /** A row of the scores table. */
  datatype Row = Row(id: nat, playerName: JsString, score: real, game: Value)

  /** Ordered by score, highest first (an `orderBy(desc(scores.score))` result). */
  predicate ByScoreDesc(rows: seq<Row>) {
    forall i, j :: 0 <= i < j < |rows| ==> rows[i].score >= rows[j].score
  }

  predicate DistinctIds(rows: seq<Row>) {
    forall i, j :: 0 <= i < j < |rows| ==> rows[i].id != rows[j].id
  }

  /**
   * `isNewBest`: at most one personal row came back from the top-2 query,
   * or the first of them is the row just inserted.
   */
  function IsNewBest(personalTop: seq<Row>, insertedId: nat): bool {
    |personalTop| <= 1 || personalTop[0].id == insertedId
  }

  function Min(a: nat, b: nat): nat {
    if a <= b then a else b
  }

  /**
   * Given the player's rows (the new one among them), ordered by score in
   * some tie order, with the top two taken: `isNewBest` implies the new score
   * is the player's highest, and a new score strictly above every other row
   * of the player makes it hold.
   */
  lemma IsNewBestMeaning(playerRows: seq<Row>, ordered: seq<Row>, inserted: Row)
    requires inserted in playerRows && DistinctIds(playerRows)
    requires multiset(ordered) == multiset(playerRows) && ByScoreDesc(ordered)
    ensures IsNewBest(ordered[..Min(2, |ordered|)], inserted.id) ==>
      forall k :: 0 <= k < |playerRows| ==> playerRows[k].score <= inserted.score
    ensures (forall k :: 0 <= k < |playerRows| && playerRows[k].id != inserted.id ==>
               playerRows[k].score < inserted.score) ==>
      IsNewBest(ordered[..Min(2, |ordered|)], inserted.id)
  {
    var top := ordered[..Min(2, |ordered|)];
    assert inserted in multiset(ordered);
    var p :| 0 <= p < |ordered| && ordered[p] == inserted;
    assert |ordered| == |playerRows| by {
      assert |multiset(ordered)| == |multiset(playerRows)|;
    }
    var ip :| 0 <= ip < |playerRows| && playerRows[ip] == inserted;
    assert ordered[0] in multiset(playerRows);
    var q :| 0 <= q < |playerRows| && playerRows[q] == ordered[0];
    if IsNewBest(top, inserted.id) {
      if |ordered| <= 1 {
        assert |playerRows| == 1;
        forall k | 0 <= k < |playerRows| ensures playerRows[k].score <= inserted.score {
          assert k == ip;
        }
      } else {
        assert ordered[0].id == inserted.id;
        assert q == ip;
        forall k | 0 <= k < |playerRows| ensures playerRows[k].score <= inserted.score {
          assert playerRows[k] in multiset(ordered);
          var m :| 0 <= m < |ordered| && ordered[m] == playerRows[k];
          assert m == 0 || ordered[0].score >= ordered[m].score;
        }
      }
    }
    if forall k :: 0 <= k < |playerRows| && playerRows[k].id != inserted.id ==>
         playerRows[k].score < inserted.score {
      assert p == 0 || ordered[0].score >= ordered[p].score;
    }
  }

  /** The player names occurring in `rows`. */
  function NamesOf(rows: seq<Row>): set<JsString> {
    set k | 0 <= k < |rows| :: rows[k].playerName
  }

  /**
   * The `seen` map after the dedupe loop: each name mapped to the score of
   * its first row.
   */
  function FirstScores(rows: seq<Row>): (m: map<JsString, real>)
    ensures m.Keys == NamesOf(rows)
    decreases |rows|
  {
    if rows == [] then map[]
    else
      var prefix := rows[..|rows| - 1];
      var last := rows[|rows| - 1];
      var m := FirstScores(prefix);
      assert NamesOf(rows) == NamesOf(prefix) + {last.playerName} by {
        forall n | n in NamesOf(rows) ensures n in NamesOf(prefix) + {last.playerName} {
          var k :| 0 <= k < |rows| && rows[k].playerName == n;
          if k < |rows| - 1 { assert prefix[k] == rows[k]; }
        }
        forall n | n in NamesOf(prefix) ensures n in NamesOf(rows) {
          var k :| 0 <= k < |prefix| && prefix[k].playerName == n;
          assert rows[k] == prefix[k];
        }
      }
      if last.playerName in m then m else m[last.playerName := last.score]
  }

  predicate Distinct<T(==)>(s: seq<T>) {
    forall i, j :: 0 <= i < j < |s| ==> s[i] != s[j]
  }

  /** The keys of `seen` in insertion order, which `Map.values()` follows. */
  function FirstNames(rows: seq<Row>): (ns: seq<JsString>)
    ensures Distinct(ns)
    ensures forall k :: 0 <= k < |ns| ==> ns[k] in FirstScores(rows)
    ensures forall n :: n in FirstScores(rows) ==> n in ns
    decreases |rows|
  {
    if rows == [] then []
    else
      var prefix := rows[..|rows| - 1];
      var last := rows[|rows| - 1];
      var ns := FirstNames(prefix);
      if last.playerName in FirstScores(prefix) then ns else ns + [last.playerName]
  }

  /** The dedupe loop: fill `seen` with the first score of each name, in row order. */
  method Dedupe(rows: seq<Row>) returns (seen: map<JsString, real>, order: seq<JsString>)
    ensures seen == FirstScores(rows) && order == FirstNames(rows)
  {
    seen := map[];
    order := [];
    for i := 0 to |rows|
      invariant seen == FirstScores(rows[..i]) && order == FirstNames(rows[..i])
    {
      var s := rows[i];
      assert rows[..i + 1][..i] == rows[..i];
      if s.playerName !in seen {
        seen := seen[s.playerName := s.score];
        order := order + [s.playerName];
      }
    }
    assert rows[..|rows|] == rows;
  }

  /**
   * Scanning rows ordered by score and keeping each name's first score keeps
   * each player's best: it is one of that player's scores and no row of the
   * player scores higher.
   */
  lemma {:induction false} FirstScoreIsBest(rows: seq<Row>, k: nat)
    requires ByScoreDesc(rows) && k < |rows|
    ensures rows[k].playerName in FirstScores(rows)
    ensures FirstScores(rows)[rows[k].playerName] >= rows[k].score
    ensures exists j :: 0 <= j < |rows| && rows[j].playerName == rows[k].playerName
                        && rows[j].score == FirstScores(rows)[rows[k].playerName]
    decreases |rows|
  {
    var prefix := rows[..|rows| - 1];
    var last := rows[|rows| - 1];
    var n := rows[k].playerName;
    assert ByScoreDesc(prefix);
    if k < |rows| - 1 {
      assert prefix[k] == rows[k];
      FirstScoreIsBest(prefix, k);
      var j :| 0 <= j < |prefix| && prefix[j].playerName == n && prefix[j].score == FirstScores(prefix)[n];
      assert rows[j] == prefix[j];
    } else if n in FirstScores(prefix) {
      var k' :| 0 <= k' < |prefix| && prefix[k'].playerName == n;
      assert prefix[k'] == rows[k'];
      FirstScoreIsBest(prefix, k');
      var j :| 0 <= j < |prefix| && prefix[j].playerName == n && prefix[j].score == FirstScores(prefix)[n];
      assert rows[j] == prefix[j];
      assert rows[j].score >= rows[k].score;
    } else {
      assert rows[k].playerName == n && rows[k].score == FirstScores(rows)[n];
    }
  }

  /** `Array.from(seen.values())`. */
  function ValuesInOrder(seen: map<JsString, real>, order: seq<JsString>): (vs: seq<real>)
    requires forall k :: 0 <= k < |order| ==> order[k] in seen
    ensures |vs| == |order|
    ensures forall k :: 0 <= k < |order| ==> vs[k] == seen[order[k]]
  {
    seq(|order|, k requires 0 <= k < |order| => seen[order[k]])
  }

  /** Each player's first score, one per distinct name, in first-appearance order. */
  function Bests(rows: seq<Row>): (vs: seq<real>)
  {
    ValuesInOrder(FirstScores(rows), FirstNames(rows))
  }

  /** The set of the elements of `s`. */
  function Elements(s: seq<JsString>): (e: set<JsString>)
    ensures forall x :: x in e <==> x in s
    decreases |s|
  {
    if s == [] then {}
    else
      var t := s[..|s| - 1];
      assert s == t + [s[|s| - 1]];
      Elements(t) + {s[|s| - 1]}
  }

  lemma {:induction false} DistinctCardinality(s: seq<JsString>)
    requires Distinct(s)
    ensures |Elements(s)| == |s|
    decreases |s|
  {
    if s != [] {
      var t := s[..|s| - 1];
      assert Distinct(t);
      DistinctCardinality(t);
      assert s[|s| - 1] !in t;
    }
  }

  /** There is one best per distinct player name. */
  lemma BestsPerPlayer(rows: seq<Row>)
    ensures |Bests(rows)| == |NamesOf(rows)|
  {
    var ns := FirstNames(rows);
    DistinctCardinality(ns);
    assert Elements(ns) == NamesOf(rows);
  }

  predicate NonIncreasing(s: seq<real>) {
    forall i, j :: 0 <= i < j < |s| ==> s[i] >= s[j]
  }

  /** Insert `x` into a non-increasing sequence, keeping it non-increasing. */
  function InsertDesc(x: real, s: seq<real>): (r: seq<real>)
    requires NonIncreasing(s)
    ensures NonIncreasing(r) && multiset(r) == multiset(s) + multiset{x}
    ensures |r| == |s| + 1
    ensures r != [] && (r[0] == x || (s != [] && r[0] == s[0]))
    decreases |s|
  {
    if s == [] || x >= s[0] then [x] + s
    else
      assert NonIncreasing(s[1..]);
      var tail := InsertDesc(x, s[1..]);
      assert s[0] >= tail[0];
      assert NonIncreasing([s[0]] + tail) by {
        forall i, j | 0 <= i < j < |tail| + 1 ensures ([s[0]] + tail)[i] >= ([s[0]] + tail)[j] {
          if i > 0 { assert ([s[0]] + tail)[i] == tail[i - 1]; }
        }
      }
      assert multiset([s[0]] + tail) == multiset(s) + multiset{x} by {
        assert s == [s[0]] + s[1..];
      }
      [s[0]] + tail
  }

  /**
   * `sort((a, b) => b - a)`: the values in non-increasing order. Every
   * non-increasing rearrangement of a sequence is this one (SortedUnique),
   * so the sort algorithm the runtime picks does not matter.
   */
  function SortDesc(s: seq<real>): (r: seq<real>)
    ensures NonIncreasing(r) && multiset(r) == multiset(s) && |r| == |s|
    decreases |s|
  {
    if s == [] then []
    else
      assert s == [s[0]] + s[1..];
      InsertDesc(s[0], SortDesc(s[1..]))
  }

  lemma {:induction false} SortedUnique(a: seq<real>, b: seq<real>)
    requires NonIncreasing(a) && NonIncreasing(b) && multiset(a) == multiset(b)
    ensures a == b
    decreases |a|
  {
    assert |a| == |b| by { assert |multiset(a)| == |multiset(b)|; }
    if a != [] {
      assert a[0] == b[0] by { SameLargest(a, b); }
      assert multiset(a[1..]) == multiset(b[1..]) by {
        DropFirst(a);
        DropFirst(b);
      }
      assert NonIncreasing(a[1..]) && NonIncreasing(b[1..]);
      SortedUnique(a[1..], b[1..]);
      assert a == [a[0]] + a[1..] && b == [b[0]] + b[1..];
    }
  }

  /** Two non-increasing arrangements of one multiset start with the same value. */
  lemma SameLargest(a: seq<real>, b: seq<real>)
    requires NonIncreasing(a) && NonIncreasing(b) && multiset(a) == multiset(b) && a != []
    ensures b != [] && a[0] == b[0]
  {
    assert a[0] in multiset(b);
    var i :| 0 <= i < |b| && b[i] == a[0];
    assert b[0] in multiset(a);
    var j :| 0 <= j < |a| && a[j] == b[0];
    assert i == 0 || b[0] >= b[i];
    assert j == 0 || a[0] >= a[j];
  }

  lemma DropFirst(a: seq<real>)
    requires a != []
    ensures multiset(a[1..]) == multiset(a) - multiset{a[0]}
  {
    assert a == [a[0]] + a[1..];
  }

  /** `findIndex(s => s <= score)`: the first index at or below the score, or -1. */
  function FindAtMost(s: seq<real>, score: real): (r: int)
    ensures -1 <= r < |s|
    ensures r >= 0 ==> s[r] <= score && forall j :: 0 <= j < r ==> s[j] > score
    ensures r == -1 <==> forall j :: 0 <= j < |s| ==> s[j] > score
    decreases |s|
  {
    if s == [] then -1
    else if s[0] <= score then 0
    else
      var k := FindAtMost(s[1..], score);
      if k == -1 then -1 else k + 1
  }

  /** The rank the handler reports for `score` among the per-player bests of `rows`. */
  function RankOf(rows: seq<Row>, score: real): (rank: int)
    ensures 0 <= rank <= |Bests(rows)|
    ensures rank == 0 <==> forall k :: 0 <= k < |Bests(rows)| ==> Bests(rows)[k] > score
  {
    var sorted := SortDesc(Bests(rows));
    var rank := FindAtMost(sorted, score) + 1;
    assert rank == 0 ==> forall k :: 0 <= k < |Bests(rows)| ==> Bests(rows)[k] > score by {
      if rank == 0 {
        forall k | 0 <= k < |Bests(rows)| ensures Bests(rows)[k] > score {
          assert Bests(rows)[k] in multiset(sorted);
        }
      }
    }
    assert rank != 0 ==> sorted[rank - 1] in multiset(Bests(rows));
    rank
  }

  /** How many of the values lie strictly above `score`. */
  function CountAbove(s: seq<real>, score: real): (n: nat)
    ensures n <= |s|
    decreases |s|
  {
    if s == [] then 0 else (if s[0] > score then 1 else 0) + CountAbove(s[1..], score)
  }

  /**
   * On a non-increasing sequence, `findIndex(...) + 1` is one more than the
   * number of entries above the score, or 0 when all of them are above it;
   * so equal scores get equal ranks.
   */
  lemma {:induction false} RankCountsHigher(s: seq<real>, score: real)
    requires NonIncreasing(s)
    ensures FindAtMost(s, score) + 1 ==
      if CountAbove(s, score) == |s| then 0 else CountAbove(s, score) + 1
    decreases |s|
  {
    if s != [] {
      assert NonIncreasing(s[1..]);
      RankCountsHigher(s[1..], score);
      if s[0] <= score {
        assert CountAbove(s, score) == 0 by { NoneAbove(s, score); }
      }
    }
  }

  /** Below a first entry at or under the score, nothing is above it. */
  lemma {:induction false} NoneAbove(s: seq<real>, score: real)
    requires NonIncreasing(s) && s != [] && s[0] <= score
    ensures CountAbove(s, score) == 0
    decreases |s|
  {
    if |s| > 1 {
      assert NonIncreasing(s[1..]);
      assert s[1] <= s[0];
      NoneAbove(s[1..], score);
    }
  }

  /** A score equal to a best shares the position of the first of the tied bests. */
  lemma TiedScoresShareRank(s: seq<real>, k: nat)
    requires NonIncreasing(s) && k < |s|
    requires k == 0 || s[k - 1] > s[k]
    ensures FindAtMost(s, s[k]) + 1 == k + 1
  {
    var r := FindAtMost(s, s[k]);
    assert r >= 0;
  }

  /**
   * When the submitted score is the player's highest (the new row among the
   * game's rows, no row of the player above it), the rank is at least 1.
   */
  lemma RankPositiveForPersonalBest(rows: seq<Row>, p: nat)
    requires ByScoreDesc(rows) && p < |rows|
    requires forall k :: 0 <= k < |rows| && rows[k].playerName == rows[p].playerName ==>
               rows[k].score <= rows[p].score
    ensures RankOf(rows, rows[p].score) >= 1
  {
    var n := rows[p].playerName;
    FirstScoreIsBest(rows, p);
    var j :| 0 <= j < |rows| && rows[j].playerName == n && rows[j].score == FirstScores(rows)[n];
    var ns := FirstNames(rows);
    var m :| 0 <= m < |ns| && ns[m] == n;
    assert Bests(rows)[m] == rows[p].score;
  }

  /**
   * The edge of the rank: a player whose earlier best beats the new score,
   * with nobody else at or below it, is ranked 0.
   */
  lemma RankZeroExample()
    ensures var a: JsString := [0x61];
      RankOf([Row(1, a, 10.0, Null), Row(2, a, 5.0, Null)], 5.0) == 0
  {
    var a: JsString := [0x61];
    var rows := [Row(1, a, 10.0, Null), Row(2, a, 5.0, Null)];
    assert Bests(rows) == [10.0] by {
      assert rows[..1] == [Row(1, a, 10.0, Null)];
      assert FirstNames(rows[..1]) == [a];
      assert FirstScores(rows[..1]) == map[a := 10.0];
    }
  }

  /** What the database answers, in query order: the inserted row's id, the top-2 personal rows, all rows of the game. */
  datatype DbAnswers = DbAnswers(insertedId: nat, personalTop: seq<Row>, gameRows: seq<Row>)

  datatype Response =
    | BadRequest(error: string)
    | Saved(inserted: Row, isNewBest: bool, rank: int)
    | ServerError(error: string)

  /**
   * The POST handler. `body` is None when parsing or destructuring the body
   * throws: the body is not valid JSON, or it is JSON `null`. Any other body
   * that is not an object reaches the checks with all three fields undefined.
   * `db` is None when a query throws.
   */
  method Post(body: Option<Body>, db: Option<DbAnswers>) returns (resp: Response)
    ensures body.None? ==> resp == ServerError("Failed to save score")
    ensures body.Some? && Validate(body.value) == Err(InvalidPayload) ==> resp == BadRequest("Invalid payload")
    ensures body.Some? && Validate(body.value) == Err(NameRequired) ==> resp == BadRequest("Player name required")
    ensures body.Some? && Validate(body.value).Ok? && db.None? ==> resp == ServerError("Failed to save score")
    ensures body.Some? && Validate(body.value).Ok? && db.Some? ==>
      var p := Validate(body.value).value;
      var a := db.value;
      resp == Saved(Row(a.insertedId, p.playerName, p.score, p.game),
                    IsNewBest(a.personalTop, a.insertedId),
                    RankOf(a.gameRows, p.score))
  {
    if body.None? {
      return ServerError("Failed to save score");
    }
    var b := body.value;
    if !Truthy(b.playerName) || !b.score.Number? {
      return BadRequest("Invalid payload");
    }
    var sanitizedName := Sanitize(StringOf(b.playerName));
    if sanitizedName == [] {
      return BadRequest("Player name required");
    }
    var score := b.score.n;
    var game := GameOf(b.game);
    if db.None? {
      return ServerError("Failed to save score");
    }
    var a := db.value;
    var inserted := Row(a.insertedId, sanitizedName, score, game);
    var isNewBest := IsNewBest(a.personalTop, inserted.id);
    var seen, order := Dedupe(a.gameRows);
    var sorted := SortDesc(ValuesInOrder(seen, order));
    var rank := FindAtMost(sorted, score) + 1;
    resp := Saved(inserted, isNewBest, rank);
  }
}
