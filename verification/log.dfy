/** The log-level rule of log/log.go: a fixed table from lower-cased names to
    zerolog levels, with Info for anything else. The LOG_LEVEL environment
    variable is passed in, and the one global-level assignment is returned. */
module Log {
  import opened Bytes

  /** The zerolog levels the table names. */
  datatype Level = Debug | Info | Warn | Error | Fatal | Panic

  /** The name each level has in the table. */
  function Name(l: Level): Bytes {
    match l
    case Debug => "debug"
    case Info => "info"
    case Warn => "warn"
    case Error => "error"
    case Fatal => "fatal"
    case Panic => "panic"
  }

  /** The `levels` map of the source. */
  const Levels: map<Bytes, Level> :=
    map["debug" := Debug, "info" := Info, "warn" := Warn, "error" := Error, "fatal" := Fatal, "panic" := Panic]

  /** The table lookup with its Info default, on an already lower-cased name. */
  function Lookup(name: Bytes): (level: Level)
    ensures forall l :: name == Name(l) ==> level == l
    ensures (forall l :: name != Name(l)) ==> level == Info
  {
    if name in Levels then
      assert Name(Levels[name]) == name;
      Levels[name]
    else Info
  }

  /** SetLogLevel: the level the global logger is set to for LOG_LEVEL=env. */
  function SetLogLevel(env: Bytes): (level: Level)
    ensures forall l :: ToLower(env) == Name(l) ==> level == l
    ensures (forall l :: ToLower(env) != Name(l)) ==> level == Info
  {
    Lookup(ToLower(env))
  }

  /** Every level is reached from its own name, whatever the letter case. */
  lemma NamesSelectTheirLevel(l: Level)
    ensures SetLogLevel(Name(l)) == l
    ensures SetLogLevel(ToUpper(Name(l))) == l
  {
    assert ToLower(Name(l)) == Name(l);
    ToLowerAbsorbs(Name(l));
  }

  /** Matching ignores letter case. */
  lemma SetLogLevelIgnoresCase(env: Bytes)
    ensures SetLogLevel(env) == SetLogLevel(ToLower(env))
    ensures SetLogLevel(env) == SetLogLevel(ToUpper(env))
  {
    ToLowerAbsorbs(env);
  }
}
