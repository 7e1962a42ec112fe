/**
 * The head-splitting arcade simulation of components/PapopeGame.tsx: a list
 * of bouncing heads, a click counter, a countdown and an "active" flag.
 * Coordinates, velocities and time are reals; the random numbers the
 * component draws are passed in; the animation-frame scheduler becomes an
 * explicit `Tick(dt)`.
 */
module PapopeGame {
  import opened Options

  /** One clickable head. `size` is its diameter; (x, y) its centre. */
  datatype Head = Head(
    id: nat,
    x: real, y: real,
    vx: real, vy: real,
    size: real,
    rotation: real, rotationSpeed: real,
    isClicked: bool)

  /** The tuning constants of the component, as parameters. */
  datatype Config = Config(
    initialSpeed: real,
    headSize: real,
    childSizeFactor: real,
    minSize: real,
    maxHeads: nat)

  /** The constraints the shipped constants satisfy. */
  predicate ValidConfig(c: Config) {
    0.0 <= c.minSize <= c.headSize && c.maxHeads >= 1
  }

  /** INITIAL_SPEED, HEAD_SIZE, CHILD_SIZE_FACTOR, MIN_SIZE, MAX_HEADS as shipped. */
  const Shipped: Config := Config(3.5, 90.0, 0.82, 40.0, 80)

  lemma ShippedIsValid()
    ensures ValidConfig(Shipped)
  {
  }

  /**
   * The random draws one `createHead` call makes: the cosine and sine of the
   * random angle, and the three other results of `Math.random()`.
   */
  datatype Draw = Draw(cos: real, sin: real, speedRandom: real, rotationRandom: real, spinRandom: real)

  /** What the host guarantees of a draw: unit direction, `Math.random()` results in [0, 1). */
  predicate IsRandomDraw(d: Draw) {
    && d.cos * d.cos + d.sin * d.sin == 1.0
    && 0.0 <= d.speedRandom < 1.0
    && 0.0 <= d.rotationRandom < 1.0
    && 0.0 <= d.spinRandom < 1.0
  }

  function Abs(v: real): real {
    if v < 0.0 then -v else v
  }

  /** `createHead`: a fresh, unflashed head at (x, y) moving in the drawn direction. */
  function CreateHead(id: nat, x: real, y: real, size: real, baseSpeed: real, d: Draw): (h: Head)
    ensures h.id == id && h.x == x && h.y == y && h.size == size && !h.isClicked
  {
    var speed := baseSpeed * (0.8 + d.speedRandom * 0.4);
    Head(id, x, y, d.cos * speed, d.sin * speed, size,
         d.rotationRandom * 360.0, (d.spinRandom - 0.5) * 4.0, false)
  }

  /**
   * A head made from a random draw moves at between 0.8 and 1.2 times the base
   * speed, starts at a rotation in [0, 360) and spins at a rate in [-2, 2).
   */
  lemma CreateHeadMotion(id: nat, x: real, y: real, size: real, baseSpeed: real, d: Draw)
    requires IsRandomDraw(d) && baseSpeed >= 0.0
    ensures var h := CreateHead(id, x, y, size, baseSpeed, d);
      && 0.64 * baseSpeed * baseSpeed <= h.vx * h.vx + h.vy * h.vy <= 1.44 * baseSpeed * baseSpeed
      && 0.0 <= h.rotation < 360.0
      && -2.0 <= h.rotationSpeed < 2.0
  {
    var speed := baseSpeed * (0.8 + d.speedRandom * 0.4);
    var h := CreateHead(id, x, y, size, baseSpeed, d);
    assert h.vx * h.vx + h.vy * h.vy == (d.cos * d.cos + d.sin * d.sin) * (speed * speed);
    assert 0.8 * baseSpeed <= speed <= 1.2 * baseSpeed;
    assert 0.64 * baseSpeed * baseSpeed <= speed * speed by {
      assert 0.0 <= 0.8 * baseSpeed;
      assert (0.8 * baseSpeed) * (0.8 * baseSpeed) <= speed * (0.8 * baseSpeed) <= speed * speed;
    }
    assert speed * speed <= 1.44 * baseSpeed * baseSpeed by {
      assert 0.0 <= speed;
      assert speed * speed <= speed * (1.2 * baseSpeed) <= (1.2 * baseSpeed) * (1.2 * baseSpeed);
    }
  }

  /** The random offset `(Math.random() - 0.5) * 20` added to a child's position. */
  function Jitter(u: real): (r: real)
    ensures 0.0 <= u < 1.0 ==> -10.0 <= r < 10.0
  {
    (u - 0.5) * 20.0
  }

  /** A child's diameter: the parent's shrunk by the factor, but never below the floor. */
  function ChildSize(parentSize: real, c: Config): (r: real)
    ensures r >= c.minSize && r >= parentSize * c.childSizeFactor
    ensures r == c.minSize || r == parentSize * c.childSizeFactor
  {
    if c.minSize >= parentSize * c.childSizeFactor then c.minSize else parentSize * c.childSizeFactor
  }

  /** One child of `parent`, as the split branch of the click handler creates it. */
  function Child(parent: Head, id: nat, jx: real, jy: real, d: Draw, c: Config): (h: Head)
    ensures h.id == id && h.size == ChildSize(parent.size, c) && !h.isClicked
  {
    CreateHead(id, parent.x + Jitter(jx), parent.y + Jitter(jy), ChildSize(parent.size, c),
               c.initialSpeed * 1.1, d)
  }

  /**
   * One axis of the wall bounce: move by the velocity, then clamp against the
   * low wall (0) and then against the high wall (`limit`), each clamp pointing
   * the velocity away from the wall it hit. Returns the new position and velocity.
   */
  function Bounce(p: real, v: real, rad: real, limit: real): (r: (real, real))
    ensures Abs(r.1) == Abs(v)
    ensures 2.0 * rad <= limit ==> rad <= r.0 <= limit - rad
    ensures 0.0 <= p + v - rad && p + v + rad <= limit ==> r == (p + v, v)
    ensures p + v + rad > limit ==> r == (limit - rad, -Abs(v))
    ensures p + v - rad < 0.0 && 2.0 * rad <= limit ==> r == (rad, Abs(v))
    ensures p + v - rad < 0.0 && 2.0 * rad > limit ==> r == (limit - rad, -Abs(v))
  {
    var p1 := p + v;
    var (p2, v2) := if p1 - rad < 0.0 then (rad, Abs(v)) else (p1, v);
    if p2 + rad > limit then (limit - rad, -Abs(v2)) else (p2, v2)
  }

  /** The per-frame update of one head inside a `w` by `ht` arena. */
  function StepHead(h: Head, w: real, ht: real): (r: Head)
    ensures r.id == h.id && r.size == h.size && r.isClicked == h.isClicked
    ensures (r.x, r.vx) == Bounce(h.x, h.vx, h.size / 2.0, w)
    ensures (r.y, r.vy) == Bounce(h.y, h.vy, h.size / 2.0, ht)
    ensures r.rotationSpeed == h.rotationSpeed && r.rotation == h.rotation + h.rotationSpeed
    ensures Abs(r.vx) == Abs(h.vx) && Abs(r.vy) == Abs(h.vy)
    ensures h.size <= w ==> h.size / 2.0 <= r.x <= w - h.size / 2.0
    ensures h.size <= ht ==> h.size / 2.0 <= r.y <= ht - h.size / 2.0
  {
    var rad := h.size / 2.0;
    var (x, vx) := Bounce(h.x, h.vx, rad, w);
    var (y, vy) := Bounce(h.y, h.vy, rad, ht);
    h.(x := x, y := y, vx := vx, vy := vy, rotation := h.rotation + h.rotationSpeed)
  }

  /** A head lies wholly inside the arena. */
  predicate Inside(h: Head, w: real, ht: real) {
    h.size / 2.0 <= h.x <= w - h.size / 2.0 && h.size / 2.0 <= h.y <= ht - h.size / 2.0
  }

  /**
   * The hit test: the point is strictly inside the head's circle. The
   * component compares `sqrt(dx² + dy²)` with the radius; this compares squares.
   */
  predicate Covers(h: Head, px: real, py: real) {
    (px - h.x) * (px - h.x) + (py - h.y) * (py - h.y) < (h.size / 2.0) * (h.size / 2.0)
  }

  /** Comparing squares is comparing the distance itself, for a non-negative size. */
  lemma CoversIsDistanceTest(h: Head, px: real, py: real, dist: real)
    requires h.size >= 0.0 && dist >= 0.0
    requires dist * dist == (px - h.x) * (px - h.x) + (py - h.y) * (py - h.y)
    ensures Covers(h, px, py) <==> dist < h.size / 2.0
  {
    var rad := h.size / 2.0;
    assert Covers(h, px, py) <==> dist * dist < rad * rad;
    assert rad * rad - dist * dist == (rad - dist) * (rad + dist);
    if dist < rad {
      assert 0.0 < rad - dist && 0.0 < rad + dist;
      assert 0.0 < (rad - dist) * (rad + dist);
    } else {
      assert rad - dist <= 0.0 && 0.0 <= rad + dist;
      assert (rad - dist) * (rad + dist) <= 0.0;
    }
  }

  /** The index the click handler hits: the highest one whose circle covers the point. */
  function LastCovering(hs: seq<Head>, px: real, py: real): (r: Option<nat>)
    ensures r.Some? ==> r.value < |hs| && Covers(hs[r.value], px, py)
    ensures r.Some? ==> forall j :: r.value < j < |hs| ==> !Covers(hs[j], px, py)
    ensures r.None? <==> forall j :: 0 <= j < |hs| ==> !Covers(hs[j], px, py)
    decreases |hs|
  {
    if hs == [] then None
    else if Covers(hs[|hs| - 1], px, py) then Some(|hs| - 1)
    else LastCovering(hs[..|hs| - 1], px, py)
  }

  /** The random numbers one click may consume. */
  datatype ClickDraws = ClickDraws(
    jitter1X: real, jitter1Y: real, child1: Draw,
    jitter2X: real, jitter2Y: real, child2: Draw,
    reseed: Draw)

  /**
   * The shape every head list of a running game keeps: no head below the size
   * floor, none flashed, ids distinct and all below the id counter.
   */
  predicate HeadsOk(hs: seq<Head>, minSize: real, next: nat) {
    && (forall k :: 0 <= k < |hs| ==> hs[k].size >= minSize && hs[k].id < next && !hs[k].isClicked)
    && (forall k, l :: 0 <= k < l < |hs| ==> hs[k].id != hs[l].id)
  }

  /** One mounted game: the refs of the component and the global id counter. */
  class Game {
    const cfg: Config
    const width: real
    const height: real
    var heads: seq<Head>
    var score: nat
    var timeLeft: real
    var active: bool
    /** The next value of the module-level `headIdCounter`. */
    var nextId: nat
    /** Whether `onGameEnd` has been called. */
    ghost var endReported: bool

    ghost predicate Valid()
      reads this
    {
      && ValidConfig(cfg)
      && 1 <= |heads| <= cfg.maxHeads
      && HeadsOk(heads, cfg.minSize, nextId)
      && (active ==> !endReported)
    }

    /**
     * The init effect: one head of the initial size in the centre of the arena,
     * score 0, the full duration left, active.
     */
    constructor (c: Config, w: real, ht: real, gameDuration: real, firstId: nat, d: Draw)
      requires ValidConfig(c)
      ensures Valid()
      ensures cfg == c && width == w && height == ht
      ensures heads == [CreateHead(firstId, w / 2.0, ht / 2.0, c.headSize, c.initialSpeed, d)]
      ensures score == 0 && timeLeft == gameDuration && active && !endReported
      ensures nextId == firstId + 1
    {
      cfg := c;
      width := w;
      height := ht;
      heads := [CreateHead(firstId, w / 2.0, ht / 2.0, c.headSize, c.initialSpeed, d)];
      nextId := firstId + 1;
      score := 0;
      timeLeft := gameDuration;
      active := true;
      endReported := false;
    }

    /**
     * One animation frame, `dt` after the previous one. An inactive game does
     * nothing. Otherwise the timer drops by `dt`; if it reaches 0 or below, the
     * game ends and reports its score (`report`), leaving the heads where they
     * are; if not, every head takes one velocity step and bounces off the walls.
     */
    method Tick(dt: real) returns (report: Option<nat>)
      requires Valid()
      modifies this
      ensures Valid()
      ensures score == old(score) && nextId == old(nextId) && |heads| == |old(heads)|
      ensures !old(active) ==>
        report == None && !active && timeLeft == old(timeLeft) && heads == old(heads)
        && endReported == old(endReported)
      ensures old(active) && old(timeLeft) - dt <= 0.0 ==>
        report == Some(old(score)) && !active && timeLeft == old(timeLeft) - dt
        && heads == old(heads) && endReported
      ensures old(active) && old(timeLeft) - dt > 0.0 ==>
        report == None && active && timeLeft == old(timeLeft) - dt && !endReported
        && forall k :: 0 <= k < |heads| ==> heads[k] == StepHead(old(heads)[k], width, height)
      ensures report.Some? ==> !old(endReported) && endReported
      ensures old(active) && old(timeLeft) - dt > 0.0 ==>
        forall k :: 0 <= k < |heads| && heads[k].size <= width && heads[k].size <= height ==>
          Inside(heads[k], width, height)
    {
      report := None;
      if !active {
        return;
      }
      timeLeft := timeLeft - dt;
      if timeLeft <= 0.0 {
        active := false;
        report := Some(score);
        endReported := true;
        return;
      }
      var i := 0;
      while i < |heads|
        invariant 0 <= i <= |heads| == |old(heads)|
        invariant forall k :: 0 <= k < i ==> heads[k] == StepHead(old(heads)[k], width, height)
        invariant forall k :: i <= k < |heads| ==> heads[k] == old(heads)[k]
        invariant score == old(score) && nextId == old(nextId) && active && !endReported
        invariant timeLeft == old(timeLeft) - dt
      {
        heads := heads[i := StepHead(heads[i], width, height)];
        i := i + 1;
      }
    }

    /**
     * A click at (px, py). An inactive game ignores it. Otherwise the heads are
     * scanned from the last index down and the first that covers the point is
     * hit: the score goes up by one and, under the cap, the head is replaced in
     * place by two children; at the cap it is removed, and if that empties the
     * list one head of the initial size is put back in the centre.
     */
    method Click(px: real, py: real, d: ClickDraws) returns (hit: bool)
      requires Valid()
      modifies this
      ensures Valid()
      ensures active == old(active) && timeLeft == old(timeLeft) && endReported == old(endReported)
      ensures hit <==> old(active) && LastCovering(old(heads), px, py).Some?
      ensures !hit ==> heads == old(heads) && score == old(score) && nextId == old(nextId)
      ensures hit ==> score == old(score) + 1
      ensures hit && |old(heads)| < cfg.maxHeads ==>
        var i := LastCovering(old(heads), px, py).value;
        var h := old(heads)[i];
        && heads == old(heads)[..i]
                    + [Child(h, old(nextId), d.jitter1X, d.jitter1Y, d.child1, cfg),
                       Child(h, old(nextId) + 1, d.jitter2X, d.jitter2Y, d.child2, cfg)]
                    + old(heads)[i + 1..]
        && |heads| == |old(heads)| + 1
        && nextId == old(nextId) + 2
      ensures hit && |old(heads)| == cfg.maxHeads && |old(heads)| > 1 ==>
        var i := LastCovering(old(heads), px, py).value;
        && heads == old(heads)[..i] + old(heads)[i + 1..]
        && |heads| == |old(heads)| - 1
        && nextId == old(nextId)
      ensures hit && |old(heads)| == cfg.maxHeads && |old(heads)| == 1 ==>
        && heads == [CreateHead(old(nextId), width / 2.0, height / 2.0, cfg.headSize, cfg.initialSpeed, d.reseed)]
        && nextId == old(nextId) + 1
    {
      hit := false;
      if !active {
        return;
      }
      var i: int := |heads| - 1;
      while i >= 0
        invariant -1 <= i < |heads|
        invariant heads == old(heads) && score == old(score) && nextId == old(nextId)
        invariant forall j :: i < j < |heads| ==> !Covers(heads[j], px, py)
        decreases i
      {
        if Covers(heads[i], px, py) {
          hit := true;
          score := score + 1;
          Resolve(i, d);
          break;
        }
        i := i - 1;
      }
    }

    /**
     * The body of the click handler once the head at `i` has been hit: flash it,
     * then splice it out for two children (under the cap) or just remove it
     * (at the cap), putting one centre head back if the list became empty.
     */
    method Resolve(i: nat, d: ClickDraws)
      requires Valid() && i < |heads|
      modifies this
      ensures Valid()
      ensures active == old(active) && timeLeft == old(timeLeft) && endReported == old(endReported)
      ensures score == old(score)
      ensures |old(heads)| < cfg.maxHeads ==>
        var h := old(heads)[i];
        && heads == old(heads)[..i]
                    + [Child(h, old(nextId), d.jitter1X, d.jitter1Y, d.child1, cfg),
                       Child(h, old(nextId) + 1, d.jitter2X, d.jitter2Y, d.child2, cfg)]
                    + old(heads)[i + 1..]
        && nextId == old(nextId) + 2
      ensures |old(heads)| == cfg.maxHeads && |old(heads)| > 1 ==>
        heads == old(heads)[..i] + old(heads)[i + 1..] && nextId == old(nextId)
      ensures |old(heads)| == cfg.maxHeads && |old(heads)| == 1 ==>
        && heads == [CreateHead(old(nextId), width / 2.0, height / 2.0, cfg.headSize, cfg.initialSpeed, d.reseed)]
        && nextId == old(nextId) + 1
    {
      ghost var before := heads;
      // the brief flash, on the head that is removed just below
      heads := heads[i := heads[i].(isClicked := true)];
      var h := heads[i];
      assert h == before[i].(isClicked := true);
      if |heads| < cfg.maxHeads {
        var child1 := Child(h, nextId, d.jitter1X, d.jitter1Y, d.child1, cfg);
        var child2 := Child(h, nextId + 1, d.jitter2X, d.jitter2Y, d.child2, cfg);
        SpliceKeepsIds(before, i, child1, child2, cfg.minSize, nextId);
        nextId := nextId + 2;
        heads := heads[..i] + [child1, child2] + heads[i + 1..];
        assert heads == before[..i] + [child1, child2] + before[i + 1..];
      } else {
        RemoveKeepsIds(before, i, cfg.minSize, nextId);
        heads := heads[..i] + heads[i + 1..];
        assert heads == before[..i] + before[i + 1..];
        if |heads| == 0 {
          heads := heads + [CreateHead(nextId, width / 2.0, height / 2.0, cfg.headSize, cfg.initialSpeed, d.reseed)];
          nextId := nextId + 1;
        }
      }
    }

    /** The effect's cleanup on unmount: the loop stops without reporting. */
    method Dispose()
      requires Valid()
      modifies this
      ensures Valid()
      ensures !active && heads == old(heads) && score == old(score) && timeLeft == old(timeLeft)
      ensures nextId == old(nextId) && endReported == old(endReported)
    {
      active := false;
    }
  }

  /** Splicing two fresh-id children in at `i` keeps the head list well formed. */
  lemma SpliceKeepsIds(hs: seq<Head>, i: nat, c1: Head, c2: Head, minSize: real, next: nat)
    requires i < |hs| && HeadsOk(hs, minSize, next)
    requires c1.id == next && c2.id == next + 1
    requires c1.size >= minSize && c2.size >= minSize && !c1.isClicked && !c2.isClicked
    ensures HeadsOk(hs[..i] + [c1, c2] + hs[i + 1..], minSize, next + 2)
  {
    var r := hs[..i] + [c1, c2] + hs[i + 1..];
    forall k | 0 <= k < |r|
      ensures r[k] == (if k < i then hs[k] else if k == i then c1 else if k == i + 1 then c2 else hs[k - 1])
    {
    }
  }

  /** Removing the head at `i` keeps the head list well formed. */
  lemma RemoveKeepsIds(hs: seq<Head>, i: nat, minSize: real, next: nat)
    requires i < |hs| && HeadsOk(hs, minSize, next)
    ensures HeadsOk(hs[..i] + hs[i + 1..], minSize, next)
  {
    var r := hs[..i] + hs[i + 1..];
    forall k | 0 <= k < |r|
      ensures r[k] == (if k < i then hs[k] else hs[k + 1])
    {
    }
  }
}
