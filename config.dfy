/** `load_thresholds`: the threshold configuration read from the
    `[thresholds]` section of an INI file. The section is given as already
    parsed by `configparser` (option name to raw value text); a file that does
    not exist, or that has no `thresholds` section, gives `None`, because
    `ConfigParser.read` skips a file it cannot open. */
module Config {
  import opened Wrappers
  import opened Text

  const MIN_READS: string := "min_reads"
  const MIN_PCT_Q30: string := "min_pct_q30"
  const MAX_ADAPTER_CONTENT: string := "max_adapter_content"
  const MIN_GC: string := "min_gc"
  const MAX_GC: string := "max_gc"

  const DEFAULT_MIN_READS: int := 10000
  const DEFAULT_MIN_PCT_Q30: real := 80.0
  const DEFAULT_MAX_ADAPTER_CONTENT: real := 5.0
  const DEFAULT_MIN_GC: real := 30.0
  const DEFAULT_MAX_GC: real := 70.0

  /** The thresholds dictionary; a field is `None` when its key is absent. */
  datatype Thresholds = Thresholds(
    minReads: Option<int>,
    minPctQ30: Option<real>,
    maxAdapterContent: Option<real>,
    minGc: Option<real>,
    maxGc: Option<real>)

  /** The empty dictionary. */
  const NO_THRESHOLDS: Thresholds := Thresholds(None, None, None, None, None)

  /** What an empty `[thresholds]` section gives. */
  const DEFAULT_THRESHOLDS: Thresholds :=
    Thresholds(Some(DEFAULT_MIN_READS), Some(DEFAULT_MIN_PCT_Q30), Some(DEFAULT_MAX_ADAPTER_CONTENT),
               Some(DEFAULT_MIN_GC), Some(DEFAULT_MAX_GC))

  type Section = map<string, string>

  /** `getint`/`getfloat` raise `ValueError` on a value that is not a number. */
  datatype ConfigError = InvalidValue(key: string)

  /** `sec.getint(key, fallback=...)` and `sec.getfloat(key, fallback=...)`:
      the fallback for an absent key, else the converted value. */
  function Get<T>(sec: Section, key: string, fallback: T, convert: string -> Option<T>): (r: Result<T, ConfigError>)
    ensures key !in sec ==> r == Ok(fallback)
    ensures r.Err? <==> Unreadable(sec, key, convert)
    ensures r.Err? ==> r.error == InvalidValue(key)
    ensures key in sec && r.Ok? ==> convert(sec[key]) == Some(r.value)
  {
    if key !in sec then Ok(fallback)
    else
      match convert(sec[key])
      case None => Err(InvalidValue(key))
      case Some(v) => Ok(v)
  }

  /** A key whose value is present but does not convert. */
  predicate Unreadable<T>(sec: Section, key: string, convert: string -> Option<T>)
  {
    key in sec && convert(sec[key]).None?
  }

  /** Some key of the section has a value that does not convert. */
  predicate AnyUnreadable(sec: Section, syn: NumberSyntax)
  {
    || Unreadable(sec, MIN_READS, syn.toInt)
    || Unreadable(sec, MIN_PCT_Q30, syn.toReal)
    || Unreadable(sec, MAX_ADAPTER_CONTENT, syn.toReal)
    || Unreadable(sec, MIN_GC, syn.toReal)
    || Unreadable(sec, MAX_GC, syn.toReal)
  }

  /** The value a present section gives for one key. */
  predicate Gives<T(==)>(sec: Section, key: string, fallback: T, convert: string -> Option<T>, field: Option<T>)
  {
    field == Some(if key in sec && convert(sec[key]).Some? then convert(sec[key]).value else fallback)
  }

  /** `load_thresholds`. Keys are read in the order of the source; the first
      one whose value does not convert raises. */
  function LoadThresholds(section: Option<Section>, syn: NumberSyntax): (r: Result<Thresholds, ConfigError>)
    ensures section.None? ==> r == Ok(NO_THRESHOLDS)
    ensures section.Some? && r.Ok? ==>
      var sec := section.value;
      && Gives(sec, MIN_READS, DEFAULT_MIN_READS, syn.toInt, r.value.minReads)
      && Gives(sec, MIN_PCT_Q30, DEFAULT_MIN_PCT_Q30, syn.toReal, r.value.minPctQ30)
      && Gives(sec, MAX_ADAPTER_CONTENT, DEFAULT_MAX_ADAPTER_CONTENT, syn.toReal, r.value.maxAdapterContent)
      && Gives(sec, MIN_GC, DEFAULT_MIN_GC, syn.toReal, r.value.minGc)
      && Gives(sec, MAX_GC, DEFAULT_MAX_GC, syn.toReal, r.value.maxGc)
    ensures r.Err? <==> section.Some? && AnyUnreadable(section.value, syn)
    ensures r.Err? ==>
      var sec := section.value;
      r.error == InvalidValue(
        if Unreadable(sec, MIN_READS, syn.toInt) then MIN_READS
        else if Unreadable(sec, MIN_PCT_Q30, syn.toReal) then MIN_PCT_Q30
        else if Unreadable(sec, MAX_ADAPTER_CONTENT, syn.toReal) then MAX_ADAPTER_CONTENT
        else if Unreadable(sec, MIN_GC, syn.toReal) then MIN_GC
        else MAX_GC)
  {
    match section
    case None => Ok(NO_THRESHOLDS)
    case Some(sec) =>
      match Get(sec, MIN_READS, DEFAULT_MIN_READS, syn.toInt)
      case Err(e) => Err(e)
      case Ok(minReads) =>
        match Get(sec, MIN_PCT_Q30, DEFAULT_MIN_PCT_Q30, syn.toReal)
        case Err(e) => Err(e)
        case Ok(minPctQ30) =>
          match Get(sec, MAX_ADAPTER_CONTENT, DEFAULT_MAX_ADAPTER_CONTENT, syn.toReal)
          case Err(e) => Err(e)
          case Ok(maxAdapter) =>
            match Get(sec, MIN_GC, DEFAULT_MIN_GC, syn.toReal)
            case Err(e) => Err(e)
            case Ok(minGc) =>
              match Get(sec, MAX_GC, DEFAULT_MAX_GC, syn.toReal)
              case Err(e) => Err(e)
              case Ok(maxGc) => Ok(Thresholds(Some(minReads), Some(minPctQ30), Some(maxAdapter), Some(minGc), Some(maxGc)))
  }

  /** A `[thresholds]` section without any of the five keys gives exactly the
      defaults, whatever else it holds. */
  lemma SectionWithoutKeysGivesDefaults(sec: Section, syn: NumberSyntax)
    requires MIN_READS !in sec && MIN_PCT_Q30 !in sec && MAX_ADAPTER_CONTENT !in sec
    requires MIN_GC !in sec && MAX_GC !in sec
    ensures LoadThresholds(Some(sec), syn) == Ok(DEFAULT_THRESHOLDS)
  {
  }

  /** Every key that is absent from a present section takes its default. */
  lemma AbsentKeysTakeDefaults(sec: Section, syn: NumberSyntax)
    requires LoadThresholds(Some(sec), syn).Ok?
    ensures var th := LoadThresholds(Some(sec), syn).value;
      && (MIN_READS !in sec ==> th.minReads == Some(10000))
      && (MIN_PCT_Q30 !in sec ==> th.minPctQ30 == Some(80.0))
      && (MAX_ADAPTER_CONTENT !in sec ==> th.maxAdapterContent == Some(5.0))
      && (MIN_GC !in sec ==> th.minGc == Some(30.0))
      && (MAX_GC !in sec ==> th.maxGc == Some(70.0))
  {
  }

  /** A missing file (or one without the section) gives the empty dictionary
      and raises nothing. */
  lemma MissingSectionGivesEmpty(syn: NumberSyntax)
    ensures LoadThresholds(None, syn) == Ok(NO_THRESHOLDS)
  {
  }

  /** A section with four of the five keys: the fifth takes its default. */
  lemma ConfigExample(syn: NumberSyntax)
    requires syn.toInt("100000") == Some(100000)
    requires syn.toReal("30.0") == Some(30.0) && syn.toReal("70.0") == Some(70.0) && syn.toReal("5.0") == Some(5.0)
    ensures LoadThresholds(Some(map[MIN_READS := "100000", MIN_GC := "30.0", MAX_GC := "70.0",
                                    MAX_ADAPTER_CONTENT := "5.0"]), syn)
         == Ok(Thresholds(Some(100000), Some(80.0), Some(5.0), Some(30.0), Some(70.0)))
  {
  }
}
