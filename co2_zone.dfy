/** CO2 concentration zones and their palette (src/utils/co2.js).
    A concentration in ppm is only ever compared with the three bounds,
    so it is modelled as a `real`. */
module Co2Utils {

  /** The four zone keys, ordered from best to worst. */
  datatype ZoneKey = Good | Warn | Mid | Danger

  /** The object `co2Zone` returns: `{ key, label, color }` (`label` is a Dafny keyword, hence `labelText`). */
  datatype Zone = Zone(key: ZoneKey, labelText: string, color: string)

  /** The property name each key has in `CO2_COLORS` and in the returned `key`. */
  function KeyName(k: ZoneKey): string
  {
    match k
    case Good => "good"
    case Warn => "warn"
    case Mid => "mid"
    case Danger => "danger"
  }

  /** `CO2_COLORS[key]`. */
  function Co2Color(k: ZoneKey): (c: string)
    ensures |c| == 7 && c[0] == '#'
    ensures forall i :: 1 <= i < 7 ==> '0' <= c[i] <= '9' || 'A' <= c[i] <= 'F'
  {
    match k
    case Good => "#5E9F5C"
    case Warn => "#C9B458"
    case Mid => "#D9822B"
    case Danger => "#C14949"
  }

  /** The label shown on the pages for each zone. */
  function ZoneLabel(k: ZoneKey): string
  {
    match k
    case Good => "좋음"
    case Warn => "보통"
    case Mid => "나쁨"
    case Danger => "매우 나쁨"
  }

  /** Position of a zone in the order good < warn < mid < danger. */
  function Severity(k: ZoneKey): nat
  {
    match k
    case Good => 0
    case Warn => 1
    case Mid => 2
    case Danger => 3
  }

  /** Inclusive upper bound of each zone; `Danger` has none. */
  const GoodMax: real := 700.0
  const WarnMax: real := 1000.0
  const MidMax: real := 1500.0

  /** The zone a ppm value falls in, by the inclusive upper bounds. */
  function Co2Zone(ppm: real): (z: Zone)
    ensures z.key == Good <==> ppm <= GoodMax
    ensures z.key == Warn <==> GoodMax < ppm <= WarnMax
    ensures z.key == Mid <==> WarnMax < ppm <= MidMax
    ensures z.key == Danger <==> MidMax < ppm
    ensures z.labelText == ZoneLabel(z.key) && z.color == Co2Color(z.key)
  {
    if ppm <= GoodMax then Zone(Good, ZoneLabel(Good), Co2Color(Good))
    else if ppm <= WarnMax then Zone(Warn, ZoneLabel(Warn), Co2Color(Warn))
    else if ppm <= MidMax then Zone(Mid, ZoneLabel(Mid), Co2Color(Mid))
    else Zone(Danger, ZoneLabel(Danger), Co2Color(Danger))
  }

  /** Distinct keys have distinct names, colours and labels, so the returned
      object identifies its zone by any one of its three fields. */
  lemma ZoneFieldsDistinguishKeys(a: ZoneKey, b: ZoneKey)
    requires a != b
    ensures KeyName(a) != KeyName(b)
    ensures Co2Color(a) != Co2Color(b)
    ensures ZoneLabel(a) != ZoneLabel(b)
  {
    match a
    case Good =>
      assert KeyName(a)[0] == 'g' && Co2Color(a)[1] == '5' && ZoneLabel(a)[0] == '좋';
    case Warn =>
      assert KeyName(a)[0] == 'w' && Co2Color(a)[1] == 'C' && Co2Color(a)[2] == '9'
        && ZoneLabel(a)[0] == '보';
    case Mid =>
      assert KeyName(a)[0] == 'm' && Co2Color(a)[1] == 'D' && ZoneLabel(a)[0] == '나';
    case Danger =>
      assert KeyName(a)[0] == 'd' && Co2Color(a)[1] == 'C' && Co2Color(a)[2] == '1'
        && ZoneLabel(a)[0] == '매';
  }

  /** A higher concentration never yields a better zone. */
  lemma Co2ZoneMonotone(p: real, q: real)
    requires p <= q
    ensures Severity(Co2Zone(p).key) <= Severity(Co2Zone(q).key)
  {
  }

  /** The good zone has no lower bound: every value up to 700 ppm, values
      below the palette's 400 ppm included, gets the good label and colour. */
  lemma Co2ZoneTotal(ppm: real)
    ensures ppm <= GoodMax ==> Co2Zone(ppm) == Zone(Good, "좋음", "#5E9F5C")
    ensures ppm < 400.0 ==> Co2Zone(ppm).key == Good
  {
  }

  /** The reading both pages display, 417.9 ppm, is good. */
  lemma DisplayedReadingIsGood()
    ensures Co2Zone(417.9) == Zone(Good, "좋음", "#5E9F5C")
  {
  }
}
