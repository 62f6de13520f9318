/** config/config.go: the configuration record and its two constructors, each
    of which also sets the global log level. */
module Config {
  import opened Bytes
  import Log

  datatype Config = Config(kafkaBroker: Bytes, kafkaTopic: Bytes, logLevel: Bytes)

  /** A constructed configuration together with the global level its
      construction set. */
  datatype Configured = Configured(config: Config, level: Log.Level)

  /** setLogLevel: the same table and default as log.SetLogLevel, on the
      level string given. */
  function SetLogLevel(logLevel: Bytes): (level: Log.Level)
    ensures forall l :: ToLower(logLevel) == Log.Name(l) ==> level == l
    ensures (forall l :: ToLower(logLevel) != Log.Name(l)) ==> level == Log.Info
  {
    Log.Lookup(ToLower(logLevel))
  }

  /** NewHTTPConfiguration: only the log level is set; broker and topic stay empty. */
  function NewHTTPConfiguration(logLevel: Bytes): (r: Configured)
    ensures r.config.kafkaBroker == [] && r.config.kafkaTopic == []
    ensures r.config.logLevel == logLevel
    ensures r.level == Log.SetLogLevel(logLevel)
  {
    Configured(Config([], [], logLevel), SetLogLevel(logLevel))
  }

  /** NewKafkaConfiguration: broker, topic and level are kept unchanged. */
  function NewKafkaConfiguration(kafkaBroker: Bytes, kafkaTopic: Bytes, logLevel: Bytes): (r: Configured)
    ensures r.config.kafkaBroker == kafkaBroker && r.config.kafkaTopic == kafkaTopic
    ensures r.config.logLevel == logLevel
    ensures r.level == Log.SetLogLevel(logLevel)
  {
    Configured(Config(kafkaBroker, kafkaTopic, logLevel), SetLogLevel(logLevel))
  }
}
