/**
 * A threshold's statistic as the command-line client builds it: the test
 * kind, the sample-size and window limits, and the two boundaries, carried
 * from the command line to the request body.
 */
module ThresholdStatistic {
  import opened Wrappers

  /** An unsigned 32-bit count. */
  newtype u32 = x: int | 0 <= x < 0x1_0000_0000

  /** A 64-bit float, kept as its bit pattern: no arithmetic is done on it. */
  datatype F64 = F64(bits: bv64)

  /** The request body's boundary, wrapping the float it was made from. */
  datatype Boundary = Boundary(value: F64)

  /** The test kind as the command line spells it. */
  datatype CliStatisticKind = Z | T

  /** The test kind as the request body spells it. */
  datatype JsonStatisticKind = Z | T

  /** The `threshold create` options of the statistic. */
  datatype CliStatisticCreate = CliStatisticCreate(
    test: CliStatisticKind,
    minSampleSize: Option<u32>,
    maxSampleSize: Option<u32>,
    window: Option<u32>,
    lowerBoundary: Option<F64>,
    upperBoundary: Option<F64>)

  /** The client's statistic. */
  datatype Statistic = Statistic(
    test: JsonStatisticKind,
    minSampleSize: Option<u32>,
    maxSampleSize: Option<u32>,
    window: Option<u32>,
    lowerBoundary: Option<F64>,
    upperBoundary: Option<F64>)

  /** The statistic in a threshold creation request. */
  datatype JsonNewStatistic = JsonNewStatistic(
    test: JsonStatisticKind,
    minSampleSize: Option<u32>,
    maxSampleSize: Option<u32>,
    window: Option<u32>,
    lowerBoundary: Option<Boundary>,
    upperBoundary: Option<Boundary>)

  /** The conversion has no error case; this type has no values in use. */
  datatype CliError = CliError

  /** `From<CliStatisticKind> for JsonStatisticKind`: each kind to its namesake. */
  function KindFrom(kind: CliStatisticKind): (k: JsonStatisticKind)
    ensures kind.Z? <==> k.Z?
    ensures kind.T? <==> k.T?
  {
    match kind
    case Z => JsonStatisticKind.Z
    case T => JsonStatisticKind.T
  }

  /** The kind mapping is one-to-one and onto. */
  lemma KindBijective(a: CliStatisticKind, b: CliStatisticKind, k: JsonStatisticKind)
    ensures KindFrom(a) == KindFrom(b) ==> a == b
    ensures exists c :: KindFrom(c) == k
  {
    if k.Z? {
      assert KindFrom(CliStatisticKind.Z) == k;
    } else {
      assert KindFrom(CliStatisticKind.T) == k;
    }
  }

  /** `TryFrom<CliStatisticCreate> for Statistic`: it always succeeds, and the
      limits and boundaries are copied unchanged; the boundaries are not checked
      against any range. */
  function StatisticFrom(create: CliStatisticCreate): (r: Result<Statistic, CliError>)
    ensures r.Success?
    ensures r.value.test == KindFrom(create.test)
    ensures r.value.minSampleSize == create.minSampleSize && r.value.maxSampleSize == create.maxSampleSize
    ensures r.value.window == create.window
    ensures r.value.lowerBoundary == create.lowerBoundary && r.value.upperBoundary == create.upperBoundary
  {
    Success(Statistic(KindFrom(create.test), create.minSampleSize, create.maxSampleSize, create.window,
                      create.lowerBoundary, create.upperBoundary))
  }

  /** `Option::map(Into::into)` on a boundary. */
  function ToBoundary(b: Option<F64>): (j: Option<Boundary>)
    ensures j.Some? <==> b.Some?
    ensures j.Some? ==> j.value.value == b.value
  {
    match b
    case None => None
    case Some(f) => Some(Boundary(f))
  }

  /** `From<Statistic> for JsonNewStatistic`: the kind, limits and window as
      they are, and each boundary wrapped, present exactly when it was present. */
  function ToJson(s: Statistic): (j: JsonNewStatistic)
    ensures j.test == s.test && j.window == s.window
    ensures j.minSampleSize == s.minSampleSize && j.maxSampleSize == s.maxSampleSize
    ensures j.lowerBoundary == ToBoundary(s.lowerBoundary) && j.upperBoundary == ToBoundary(s.upperBoundary)
  {
    JsonNewStatistic(s.test, s.minSampleSize, s.maxSampleSize, s.window,
                     ToBoundary(s.lowerBoundary), ToBoundary(s.upperBoundary))
  }

  /** The command-line kind a request kind came from. */
  function KindBack(k: JsonStatisticKind): (kind: CliStatisticKind)
    ensures KindFrom(kind) == k
  {
    match k
    case Z => CliStatisticKind.Z
    case T => CliStatisticKind.T
  }

  /** The boundary a request boundary was made from. */
  function FromBoundary(b: Option<Boundary>): (f: Option<F64>)
    ensures ToBoundary(f) == b
  {
    match b
    case None => None
    case Some(w) => Some(w.value)
  }

  /** The command-line options a request statistic came from. */
  function CliFromJson(j: JsonNewStatistic): (c: CliStatisticCreate)
    ensures ToJson(StatisticFrom(c).value) == j
  {
    CliStatisticCreate(KindBack(j.test), j.minSampleSize, j.maxSampleSize, j.window,
                       FromBoundary(j.lowerBoundary), FromBoundary(j.upperBoundary))
  }

  /** Command line to statistic to request loses nothing: the options can be
      read back from the request. */
  lemma NoFieldLost(c: CliStatisticCreate)
    ensures CliFromJson(ToJson(StatisticFrom(c).value)) == c
  {
    match c.test {
      case Z =>
      case T =>
    }
    match c.lowerBoundary {
      case None =>
      case Some(_) =>
    }
    match c.upperBoundary {
      case None =>
      case Some(_) =>
    }
  }

  /** Different options give different requests. */
  lemma {:induction false} ToJsonInjective(a: CliStatisticCreate, b: CliStatisticCreate)
    requires ToJson(StatisticFrom(a).value) == ToJson(StatisticFrom(b).value)
    ensures a == b
  {
    NoFieldLost(a);
    NoFieldLost(b);
  }

  /** Boundaries outside (0, 1), here -2.0 and 2.0, pass through unchecked. */
  lemma UncheckedBoundaries(c: CliStatisticCreate)
    requires c.lowerBoundary == Some(F64(0xC000_0000_0000_0000)) && c.upperBoundary == Some(F64(0x4000_0000_0000_0000))
    ensures StatisticFrom(c).Success?
    ensures ToJson(StatisticFrom(c).value).lowerBoundary == Some(Boundary(F64(0xC000_0000_0000_0000)))
    ensures ToJson(StatisticFrom(c).value).upperBoundary == Some(Boundary(F64(0x4000_0000_0000_0000)))
  {
  }
}
