/** The three dimensionless motion laws: displacement and its first three derivatives in closed form. */
module Law {
  import opened Reals
  import opened Results
  import opened Trig

  /** A law name; any text that names no supported law is `Other`. */
  datatype LawName = Cosine | Cycloid | Parabolic | Other(text: string)

  predicate Known(tp: LawName) {
    !tp.Other?
  }

  /** Displacement s/h at a dimensionless time and its first three derivatives. */
  datatype Values = Values(y: real, y1: real, y2: real, y3: real)

  function Clamp(T: real): real {
    if T < 0.0 then 0.0 else if T > 1.0 then 1.0 else T
  }

  /** The angle pi T, one half turn of the cosine law. */
  function HalfTurn(t: Circle, T: real): real { t.pi * T }

  /** The angle 2 pi T, one full turn of the cycloid. */
  function FullTurn(t: Circle, T: real): real { 2.0 * t.pi * T }

  function CosineAt(t: Circle, T: real): Values {
    var p := HalfTurn(t, T);
    Values((1.0 - t.cos(p)) / 2.0,
           t.pi / 2.0 * t.sin(p),
           Square(t.pi) / 2.0 * t.cos(p),
           -(Prod(Square(t.pi), t.pi) / 2.0) * t.sin(p))
  }

  function CycloidAt(t: Circle, T: real): Values
  {
    var q := FullTurn(t, T);
    Values(T - t.sin(q) / (2.0 * t.pi),
           1.0 - t.cos(q),
           2.0 * t.pi * t.sin(q),
           4.0 * Square(t.pi) * t.cos(q))
  }

  /** Like its siblings it is given the circle functions, of which it needs none. */
  function ParabolicAt(t: Circle, T: real, side: real): Values {
    if T < 0.5 || (T == 0.5 && side < 0.0) then
      Values(2.0 * Square(T), 4.0 * T, 4.0, 0.0)
    else if T > 0.5 || (T == 0.5 && side > 0.0) then
      var d := 1.0 - T;
      Values(1.0 - 2.0 * Square(d), 4.0 * d, -4.0, 0.0)
    else
      Values(0.5, 2.0, 4.0, 0.0)
  }

  /** A negative side takes the value from below, a positive one from above; only the parabolic
      midpoint depends on it. */
  function EvalSide(t: Circle, tp: LawName, T: real, side: real): Result<Values>
  {
    var T' := Clamp(T);
    match tp
    case Cosine => Success(CosineAt(t, T'))
    case Cycloid => Success(CycloidAt(t, T'))
    case Parabolic => Success(ParabolicAt(t, T', side))
    case Other(_) => Failure(UnknownLaw)
  }

  function Eval(t: Circle, tp: LawName, T: real): Result<Values>
  {
    EvalSide(t, tp, T, 0.0)
  }

  /** Largest absolute value of each derivative. */
  datatype Peaks = Peaks(v1: real, v2: real, v3: real)

  function ClosedPeaks(t: Circle, tp: LawName): Result<Peaks> {
    match tp
    case Cosine => Success(Peaks(t.pi / 2.0, Square(t.pi) / 2.0, Prod(Square(t.pi), t.pi) / 2.0))
    case Cycloid => Success(Peaks(2.0, 2.0 * t.pi, 4.0 * Square(t.pi)))
    case Parabolic => Success(Peaks(2.0, 4.0, 0.0))
    case Other(_) => Failure(UnknownLaw)
  }
}
