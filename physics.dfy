// Shared vocabulary of the game model: 2-D vectors, optional values and the rigid
// body whose velocity and gravity scale the player and enemy components write.
// Square roots are never taken: where the game normalises a vector, the caller
// supplies the vector's length `m` together with the fact `IsLength(v, m)`.

datatype Option<T> = None | Some(value: T)

datatype Vec2 = Vec2(x: real, y: real)

const ZeroVec: Vec2 := Vec2(0.0, 0.0)
const UpVec: Vec2 := Vec2(0.0, 1.0)

/** The engine's normalisation threshold: shorter vectors normalise to zero. */
const NormalizeEpsilon: real := 0.00001

function Add(a: Vec2, b: Vec2): Vec2 { Vec2(a.x + b.x, a.y + b.y) }

function Sub(a: Vec2, b: Vec2): Vec2 { Vec2(a.x - b.x, a.y - b.y) }

function Scale(v: Vec2, k: real): Vec2 { Vec2(v.x * k, v.y * k) }

function SqLen(v: Vec2): real { v.x * v.x + v.y * v.y }

/** `m` is the Euclidean length of `v`. */
predicate IsLength(v: Vec2, m: real) { m >= 0.0 && m * m == SqLen(v) }

/** The engine's vector equality: the squared distance is below (1e-5)^2. */
predicate ApproxEqual(a: Vec2, b: Vec2) { SqLen(Sub(a, b)) < NormalizeEpsilon * NormalizeEpsilon }

/** Unit vector along `v`; the zero vector when `v` is (almost) zero. */
function Normalized(v: Vec2, m: real): (u: Vec2)
  requires IsLength(v, m)
  ensures m > NormalizeEpsilon ==> Scale(u, m) == v
  ensures m <= NormalizeEpsilon ==> u == ZeroVec
{
  if m > NormalizeEpsilon then Vec2(v.x / m, v.y / m) else ZeroVec
}

/** A vector longer than the threshold normalises to a unit vector. */
lemma NormalizedIsUnit(v: Vec2, m: real)
  requires IsLength(v, m)
  ensures m > NormalizeEpsilon ==> SqLen(Normalized(v, m)) == 1.0
{
  if m > NormalizeEpsilon {
    var u := Normalized(v, m);
    assert u.x * m == v.x && u.y * m == v.y;
    assert SqLen(u) * (m * m) == SqLen(v) by {
      calc {
        SqLen(u) * (m * m);
        (u.x * m) * (u.x * m) + (u.y * m) * (u.y * m);
        v.x * v.x + v.y * v.y;
      }
    }
  }
}

/** Distance from `a` to `b` is at most `r`, decided on squares. */
predicate WithinDistance(a: Vec2, b: Vec2, r: real) { r >= 0.0 && SqLen(Sub(a, b)) <= r * r }

/** The squared test agrees with the engine's `Distance(a, b) <= r`. */
lemma WithinDistanceIsDistance(a: Vec2, b: Vec2, r: real, d: real)
  requires IsLength(Sub(a, b), d)
  ensures WithinDistance(a, b, r) <==> d <= r
{
  if r >= 0.0 {
    if d <= r {
      SquareMonotone(d, r);
    } else {
      SquareMonotone(r, d);
      assert r * r < d * d;
    }
  }
}

lemma SquareMonotone(p: real, q: real)
  requires 0.0 <= p <= q
  ensures p * p <= q * q
  ensures p < q ==> p * p < q * q
{
  var pp, pq, qq := p * p, p * q, q * q;
  assert pp <= pq <= qq;
  if p < q {
    assert pq < qq;
  }
}

/** Sum of a sequence of integers. */
function SumInts(xs: seq<int>): int
  decreases |xs|
{
  if xs == [] then 0 else xs[0] + SumInts(xs[1..])
}

/** The physics body shared by a game object's components. */
class Rigidbody {
  var velocity: Vec2
  var gravityScale: real
  var isKinematic: bool

  constructor (gravityScale: real)
    ensures this.velocity == ZeroVec && this.gravityScale == gravityScale && !this.isKinematic
  {
    this.velocity := ZeroVec;
    this.gravityScale := gravityScale;
    this.isKinematic := false;
  }
}
