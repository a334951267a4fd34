/** The dispatch section of the configuration and the bounds `AppConfig::validate` puts on it. */
module Config {
  import opened Basics

  const MAX_PER_CALLBACK_ATTEMPTS: nat := 50
  const MAX_HANDLER_TIMEOUT_SECS: nat := 300
  const MAX_COMPLETION_CYCLES_LIMIT: nat := 1_000
  const MAX_BACKOFF_ELEMENT_SECS: nat := 7 * 86_400
  const MAX_CALLBACKS_PER_EVENT_LIMIT: nat := 1_000
  const MIN_SWEEP_INTERVAL_SECS: nat := 10
  const MIN_PAYLOAD_SIZE_BYTES: int := 1_024
  const MAX_PAYLOAD_SIZE_BYTES: int := 100 * 1_024 * 1_024

  datatype DispatchSettings = DispatchSettings(
    pollIntervalSecs: nat,
    batchSize: int,
    dispatchConcurrency: nat,
    scheduleBatchSize: nat,
    maxAttempts: nat,
    backoffSecs: seq<nat>,
    handlerTimeoutSecs: nat,
    lockBufferSecs: nat,
    sweepIntervalSecs: nat,
    maxCompletionCycles: nat,
    payloadSizeLimitBytes: int,
    notifyChannel: string,
    allowUnsignedCallbacks: bool,
    maxCallbacksPerEvent: nat)

  datatype DatabaseSettings = DatabaseSettings(url: string, maxConnections: nat, acquireTimeoutSecs: nat)

  /** One problem found by the validation; the texts of the messages are not modelled. */
  datatype Problem =
    | PollInterval | BatchSize | ScheduleBatchSize | AttemptsZero | AttemptsLarge | TimeoutZero | TimeoutLarge
    | LockBuffer | CyclesZero | CyclesLarge | BackoffEmpty | BackoffZero | BackoffLarge | SweepInterval
    | PayloadSmall | PayloadLarge | CallbacksZero | CallbacksLarge | ConcurrencyZero | ConcurrencyLarge
    | NotifyChannel | DatabaseUrl | ConnectionsZero | AcquireTimeout

  /** The settings every target and every lease relies on. */
  predicate Bounded(s: DispatchSettings) {
    && 0 < s.pollIntervalSecs && 0 < s.batchSize && 0 < s.scheduleBatchSize && 0 < s.dispatchConcurrency
    && 1 <= s.maxAttempts <= MAX_PER_CALLBACK_ATTEMPTS
    && 1 <= s.handlerTimeoutSecs <= MAX_HANDLER_TIMEOUT_SECS
    && 1 <= s.lockBufferSecs
    && 1 <= s.maxCompletionCycles <= MAX_COMPLETION_CYCLES_LIMIT
    && s.backoffSecs != []
    && (forall b :: b in s.backoffSecs ==> 1 <= b <= MAX_BACKOFF_ELEMENT_SECS)
    && MIN_SWEEP_INTERVAL_SECS <= s.sweepIntervalSecs
    && MIN_PAYLOAD_SIZE_BYTES <= s.payloadSizeLimitBytes <= MAX_PAYLOAD_SIZE_BYTES
    && 1 <= s.maxCallbacksPerEvent <= MAX_CALLBACKS_PER_EVENT_LIMIT
    && !Blank(s.notifyChannel)
  }

  /** `trim().is_empty()`. */
  predicate Blank(s: string) {
    forall i :: 0 <= i < |s| ==> IsSpace(s[i])
  }

  /** The pool is large enough for the dispatches, whose number the check cuts to 32 bits. */
  predicate Connected(d: DatabaseSettings, s: DispatchSettings) {
    && !Blank(d.url) && 1 <= d.maxConnections && 1 <= d.acquireTimeoutSecs
    && s.dispatchConcurrency % 0x1_0000_0000 <= d.maxConnections
  }

  /** The dispatch checks: no problem is found exactly in bounded settings. */
  method ValidateDispatch(s: DispatchSettings) returns (errors: seq<Problem>)
    ensures errors == [] <==> Bounded(s)
  {
    errors := [];
    if s.pollIntervalSecs == 0 { errors := errors + [PollInterval]; }
    if s.batchSize <= 0 { errors := errors + [BatchSize]; }
    if s.scheduleBatchSize == 0 { errors := errors + [ScheduleBatchSize]; }
    if s.maxAttempts == 0 { errors := errors + [AttemptsZero]; }
    if s.maxAttempts > MAX_PER_CALLBACK_ATTEMPTS { errors := errors + [AttemptsLarge]; }
    if s.handlerTimeoutSecs == 0 { errors := errors + [TimeoutZero]; }
    if s.handlerTimeoutSecs > MAX_HANDLER_TIMEOUT_SECS { errors := errors + [TimeoutLarge]; }
    if s.lockBufferSecs == 0 { errors := errors + [LockBuffer]; }
    if s.maxCompletionCycles == 0 { errors := errors + [CyclesZero]; }
    if s.maxCompletionCycles > MAX_COMPLETION_CYCLES_LIMIT { errors := errors + [CyclesLarge]; }
    if s.backoffSecs == [] { errors := errors + [BackoffEmpty]; }
    if 0 in s.backoffSecs { errors := errors + [BackoffZero]; }
    if exists b :: b in s.backoffSecs && b > MAX_BACKOFF_ELEMENT_SECS { errors := errors + [BackoffLarge]; }
    if s.sweepIntervalSecs < MIN_SWEEP_INTERVAL_SECS { errors := errors + [SweepInterval]; }
    if s.payloadSizeLimitBytes < MIN_PAYLOAD_SIZE_BYTES { errors := errors + [PayloadSmall]; }
    if s.payloadSizeLimitBytes > MAX_PAYLOAD_SIZE_BYTES { errors := errors + [PayloadLarge]; }
    if Blank(s.notifyChannel) { errors := errors + [NotifyChannel]; }
    if s.maxCallbacksPerEvent == 0 { errors := errors + [CallbacksZero]; }
    if s.maxCallbacksPerEvent > MAX_CALLBACKS_PER_EVENT_LIMIT { errors := errors + [CallbacksLarge]; }
    if s.dispatchConcurrency == 0 { errors := errors + [ConcurrencyZero]; }
  }

  /** The database and dispatch checks of `AppConfig::validate`: no problem is found exactly in bounded
      settings with a large enough pool. */
  method Validate(d: DatabaseSettings, s: DispatchSettings) returns (errors: seq<Problem>)
    ensures errors == [] <==> Bounded(s) && Connected(d, s)
  {
    errors := [];
    if Blank(d.url) { errors := errors + [DatabaseUrl]; }
    if d.maxConnections == 0 { errors := errors + [ConnectionsZero]; }
    if d.acquireTimeoutSecs == 0 { errors := errors + [AcquireTimeout]; }
    var problems := ValidateDispatch(s);
    errors := errors + problems;
    if d.maxConnections > 0 && s.dispatchConcurrency % 0x1_0000_0000 > d.maxConnections {
      errors := errors + [ConcurrencyLarge];
    }
  }
}
