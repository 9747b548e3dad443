/** Runtime settings whose values constrain one another, and the validators of
    internal/config/runtime_service.go over them. */
module SettingsPolicy {
  import opened Wrappers

  datatype Key =
    | ReturnTo
    | EmailVerificationRequired
    | AccessTokenTTL
    | SessionTTL
    | RefreshTokenTTL
    | Rotation
    | RecentAuthenticationEnabled
    | RecentAuthenticationWindow
    | WebhookEvents
    | WebhookTimeout
    | WebhookStaleAfter
    | ChallengeEnabled
    | ChallengeTTL
    | VerificationCodeTTL
    | MaxAttempts
    | MaxResends
    | MinimumResendInterval

  const KEYS: seq<Key> :=
    [ReturnTo, EmailVerificationRequired, AccessTokenTTL, SessionTTL, RefreshTokenTTL, Rotation,
     RecentAuthenticationEnabled, RecentAuthenticationWindow, WebhookEvents, WebhookTimeout, WebhookStaleAfter,
     ChallengeEnabled, ChallengeTTL, VerificationCodeTTL, MaxAttempts, MaxResends, MinimumResendInterval]

  lemma KeysAreAll(key: Key)
    ensures key in KEYS
  {
    var at := match key
      case ReturnTo => 0 case EmailVerificationRequired => 1 case AccessTokenTTL => 2 case SessionTTL => 3
      case RefreshTokenTTL => 4 case Rotation => 5 case RecentAuthenticationEnabled => 6
      case RecentAuthenticationWindow => 7 case WebhookEvents => 8 case WebhookTimeout => 9 case WebhookStaleAfter => 10
      case ChallengeEnabled => 11 case ChallengeTTL => 12 case VerificationCodeTTL => 13 case MaxAttempts => 14
      case MaxResends => 15 case MinimumResendInterval => 16;
    assert KEYS[at] == key;
  }

  datatype Value = Flag(flag: bool) | Number(number: int) | Span(span: int) | Text(text: string)

  type Values = map<Key, Value>

  const MILLISECOND := 1_000_000
  const SECOND := 1000 * MILLISECOND
  const MINUTE := 60 * SECOND
  const HOUR := 60 * MINUTE
  const DAY := 24 * HOUR
  const MAX_ACCESS_TOKEN_TTL := 24 * HOUR
  const EXPIRY_ONLY_MAX_ACCESS_TOKEN_TTL := 10 * MINUTE

  /** Readers of setting texts, which are not modelled: the return-path check, the rotation
      interval, the event list and the names of events. `environment` holds the explicitly
      set variables. */
  datatype Context = Context(
    safeReturn: string -> bool,
    rotation: string -> Option<int>,
    events: string -> seq<string>,
    supported: string -> bool,
    environment: Values,
    expiryOnly: bool,
    emailDeliverable: bool)

  predicate HasType(key: Key, value: Value) {
    match key
    case EmailVerificationRequired | RecentAuthenticationEnabled | ChallengeEnabled => value.Flag?
    case AccessTokenTTL | SessionTTL | RefreshTokenTTL | MaxAttempts | MaxResends => value.Number?
    case RecentAuthenticationWindow | WebhookTimeout | WebhookStaleAfter | ChallengeTTL | VerificationCodeTTL
       | MinimumResendInterval => value.Span?
    case ReturnTo | Rotation | WebhookEvents => value.Text?
  }

  /** validateBounds: the operator's limits; environment values are not held to them. */
  predicate InBounds(key: Key, value: Value)
    requires HasType(key, value)
  {
    match key
    case AccessTokenTTL => 1 <= value.number <= MAX_ACCESS_TOKEN_TTL / MINUTE
    case SessionTTL | RefreshTokenTTL => 1 <= value.number <= 3650
    case RecentAuthenticationWindow => MINUTE <= value.span <= HOUR
    case WebhookTimeout => 100 * MILLISECOND <= value.span <= 5 * MINUTE
    case WebhookStaleAfter => SECOND <= value.span <= HOUR
    case ChallengeTTL => 5 * MINUTE <= value.span <= 24 * HOUR
    case VerificationCodeTTL => MINUTE <= value.span <= HOUR
    case MaxAttempts => 1 <= value.number <= 20
    case MaxResends => 0 <= value.number <= 10
    case MinimumResendInterval => 0 <= value.span <= 15 * MINUTE
    case _ => true
  }

  /** The values an operator may give a setting, in counts, minutes, days and nanoseconds. */
  predicate Permitted(key: Key, value: Value) {
    match key
    case EmailVerificationRequired | RecentAuthenticationEnabled | ChallengeEnabled => value.Flag?
    case ReturnTo | Rotation | WebhookEvents => value.Text?
    case AccessTokenTTL => value.Number? && 1 <= value.number <= 1440
    case SessionTTL | RefreshTokenTTL => value.Number? && 1 <= value.number <= 3650
    case MaxAttempts => value.Number? && 1 <= value.number <= 20
    case MaxResends => value.Number? && 0 <= value.number <= 10
    case RecentAuthenticationWindow | VerificationCodeTTL =>
      value.Span? && 60_000_000_000 <= value.span <= 3_600_000_000_000
    case WebhookTimeout => value.Span? && 100_000_000 <= value.span <= 300_000_000_000
    case WebhookStaleAfter => value.Span? && 1_000_000_000 <= value.span <= 3_600_000_000_000
    case ChallengeTTL => value.Span? && 300_000_000_000 <= value.span <= 86_400_000_000_000
    case MinimumResendInterval => value.Span? && 0 <= value.span <= 900_000_000_000
  }

  lemma PermittedIs(key: Key, value: Value)
    ensures Permitted(key, value) <==> HasType(key, value) && InBounds(key, value)
  {
  }

  function Default(key: Key): (value: Value)
    ensures HasType(key, value) && InBounds(key, value)
  {
    match key
    case ReturnTo => Text("/")
    case EmailVerificationRequired => Flag(false)
    case AccessTokenTTL => Number(10)
    case SessionTTL => Number(60)
    case RefreshTokenTTL => Number(14)
    case Rotation => Text("24h")
    case RecentAuthenticationEnabled => Flag(true)
    case RecentAuthenticationWindow => Span(10 * MINUTE)
    case WebhookEvents => Text("")
    case WebhookTimeout => Span(5 * SECOND)
    case WebhookStaleAfter => Span(2 * MINUTE)
    case ChallengeEnabled => Flag(false)
    case ChallengeTTL => Span(30 * MINUTE)
    case VerificationCodeTTL => Span(10 * MINUTE)
    case MaxAttempts => Number(5)
    case MaxResends => Number(3)
    case MinimumResendInterval => Span(30 * SECOND)
  }

  /** Settings that operators may change; the others are fixed at startup. */
  predicate Editable(key: Key) {
    key != ChallengeEnabled
  }

  ghost predicate TypedAt(values: Values, key: Key) {
    key in values && HasType(key, values[key])
  }

  ghost predicate Complete(values: Values) {
    forall key: Key :: TypedAt(values, key)
  }

  ghost predicate ContextOk(c: Context) {
    forall key <- c.environment :: HasType(key, c.environment[key])
  }

  // Validators

  predicate ValidSession(accessTTL: int, sessionTTL: int, refreshTTL: int, rotation: int, recentWindow: int,
                         expiryOnly: bool)
  {
    && accessTTL > 0 && sessionTTL > 0 && refreshTTL > 0 && recentWindow > 0
    && refreshTTL <= sessionTTL
    && accessTTL < refreshTTL
    && accessTTL <= MAX_ACCESS_TOKEN_TTL
    && !(expiryOnly && accessTTL > EXPIRY_ONLY_MAX_ACCESS_TOKEN_TTL)
    && !(rotation > 0 && rotation >= refreshTTL)
  }

  predicate Distinct<T(==)>(s: seq<T>) {
    forall i, j | 0 <= i < j < |s| :: s[i] != s[j]
  }

  predicate ValidWebhook(c: Context, timeout: int, staleAfter: int, events: seq<string>) {
    0 < timeout < staleAfter && Distinct(events) && forall e <- events :: c.supported(e)
  }

  predicate ValidChallenge(ttl: int, codeTTL: int, maxAttempts: int, maxResends: int, minimumInterval: int) {
    0 < ttl && 0 < codeTTL <= ttl && maxAttempts > 0 && maxResends >= 0 && minimumInterval >= 0
  }

  predicate SessionValuesOk(c: Context, v: Values)
    requires TypedAt(v, AccessTokenTTL) && TypedAt(v, SessionTTL) && TypedAt(v, RefreshTokenTTL) && TypedAt(v, Rotation)
    requires TypedAt(v, RecentAuthenticationWindow)
  {
    var rotation := c.rotation(v[Rotation].text);
    rotation.Some? &&
    ValidSession(v[AccessTokenTTL].number * MINUTE, v[SessionTTL].number * DAY, v[RefreshTokenTTL].number * DAY,
                 rotation.value,
                 v[RecentAuthenticationWindow].span, c.expiryOnly)
  }

  predicate WebhookValuesOk(c: Context, v: Values)
    requires TypedAt(v, WebhookTimeout) && TypedAt(v, WebhookStaleAfter) && TypedAt(v, WebhookEvents)
  {
    ValidWebhook(c, v[WebhookTimeout].span, v[WebhookStaleAfter].span, c.events(v[WebhookEvents].text))
  }

  predicate ChallengeValuesOk(v: Values)
    requires TypedAt(v, ChallengeTTL) && TypedAt(v, VerificationCodeTTL) && TypedAt(v, MaxAttempts) &&
        TypedAt(v, MaxResends)
    requires TypedAt(v, MinimumResendInterval)
  {
    ValidChallenge(v[ChallengeTTL].span, v[VerificationCodeTTL].span, v[MaxAttempts].number, v[MaxResends].number,
                   v[MinimumResendInterval].span)
  }

  predicate ReturnToOk(c: Context, v: Values)
    requires TypedAt(v, ReturnTo)
  {
    c.safeReturn(v[ReturnTo].text)
  }

  predicate EmailRuleOk(c: Context, v: Values)
    requires TypedAt(v, EmailVerificationRequired) && TypedAt(v, ChallengeEnabled)
  {
    v[EmailVerificationRequired].flag ==> c.emailDeliverable && v[ChallengeEnabled].flag
  }

  lemma CompleteAt(v: Values)
    requires Complete(v)
    ensures TypedAt(v, ReturnTo) && TypedAt(v, EmailVerificationRequired) && TypedAt(v, AccessTokenTTL) &&
        TypedAt(v, SessionTTL)
    ensures TypedAt(v, RefreshTokenTTL) && TypedAt(v, Rotation) && TypedAt(v, RecentAuthenticationEnabled)
    ensures TypedAt(v, RecentAuthenticationWindow) && TypedAt(v, WebhookEvents) && TypedAt(v, WebhookTimeout)
    ensures TypedAt(v, WebhookStaleAfter) && TypedAt(v, ChallengeEnabled) && TypedAt(v, ChallengeTTL)
    ensures TypedAt(v, VerificationCodeTTL) && TypedAt(v, MaxAttempts) && TypedAt(v, MaxResends)
    ensures TypedAt(v, MinimumResendInterval)
  {
  }

  /** The checks of buildSnapshot that the projections stand for. */
  predicate ChecksOk(c: Context, v: Values)
    requires Complete(v)
  {
    CompleteAt(v);
    ReturnToOk(c, v) && SessionValuesOk(c, v) && WebhookValuesOk(c, v) && ChallengeValuesOk(v)
  }

  /** All checks of buildSnapshot on effective values. */
  predicate PolicyOk(c: Context, v: Values)
    requires Complete(v)
  {
    CompleteAt(v);
    ChecksOk(c, v) && EmailRuleOk(c, v)
  }

  /** The checks written out: a safe return path, a readable rotation interval, lifetimes in minutes and
      days that nest, webhook times and events, and challenge limits. */
  ghost predicate ChecksHold(c: Context, v: Values)
    requires Complete(v)
  {
    CompleteAt(v);
    var access, refresh, session := v[AccessTokenTTL].number, v[RefreshTokenTTL].number, v[SessionTTL].number;
    var rotation, events := c.rotation(v[Rotation].text), c.events(v[WebhookEvents].text);
    && c.safeReturn(v[ReturnTo].text)
    && 0 < access < refresh * 1440 && 0 < refresh <= session && 0 < v[RecentAuthenticationWindow].span
    && access <= (if c.expiryOnly then 10 else 1440)
    && rotation.Some? && rotation.value < refresh * 86_400_000_000_000
    && 0 < v[WebhookTimeout].span < v[WebhookStaleAfter].span
    && (forall i, j | 0 <= i < |events| && 0 <= j < |events| && events[i] == events[j] :: i == j)
    && (forall i | 0 <= i < |events| :: c.supported(events[i]))
    && 0 < v[VerificationCodeTTL].span <= v[ChallengeTTL].span
    && 0 < v[MaxAttempts].number && 0 <= v[MaxResends].number && 0 <= v[MinimumResendInterval].span
  }

  /** And required email verification needs deliverable email and the challenge flows. */
  ghost predicate PolicyHolds(c: Context, v: Values)
    requires Complete(v)
  {
    CompleteAt(v);
    && ChecksHold(c, v)
    && (v[EmailVerificationRequired] == Flag(true) ==> c.emailDeliverable && v[ChallengeEnabled] == Flag(true))
  }

  /** The validators refuse exactly the values that violate one of these. */
  lemma PolicyIs(c: Context, v: Values)
    requires Complete(v)
    ensures ChecksOk(c, v) <==> ChecksHold(c, v)
    ensures PolicyOk(c, v) <==> PolicyHolds(c, v)
  {
    CompleteAt(v);
    var events := c.events(v[WebhookEvents].text);
    assert (forall e <- events :: c.supported(e)) <==> (forall i | 0 <= i < |events| :: c.supported(events[i]));
    hide Complete, HasType;
  }

  /** Counts and intervals outside every group. */
  predicate CountsOk(v: Values)
    requires Complete(v)
  {
    CompleteAt(v);
    v[MaxAttempts].number > 0 && v[MaxResends].number >= 0 && v[MinimumResendInterval].span >= 0
  }

  // Projections

  /** environmentRemovalProjectionValidator: the settings checked together with a key. */
  datatype Group = ReturnGroup | SessionGroup | EventsGroup | TimingGroup | ChallengeGroup

  function GroupOf(key: Key): Option<Group> {
    match key
    case ReturnTo => Some(ReturnGroup)
    case AccessTokenTTL | SessionTTL | RefreshTokenTTL | Rotation | RecentAuthenticationEnabled
       | RecentAuthenticationWindow => Some(SessionGroup)
    case WebhookEvents => Some(EventsGroup)
    case WebhookTimeout | WebhookStaleAfter => Some(TimingGroup)
    case ChallengeTTL | VerificationCodeTTL => Some(ChallengeGroup)
    case _ => None
  }

  function KeysOf(group: Group): seq<Key> {
    match group
    case ReturnGroup => [ReturnTo]
    case SessionGroup => [AccessTokenTTL, SessionTTL, RefreshTokenTTL, Rotation, RecentAuthenticationEnabled,
                          RecentAuthenticationWindow]
    case EventsGroup => [WebhookEvents]
    case TimingGroup => [WebhookTimeout, WebhookStaleAfter]
    case ChallengeGroup => [ChallengeTTL, VerificationCodeTTL]
  }

  /** Every setting of the group has a value of its type. */
  ghost predicate TypedOn(v: Values, group: Group) {
    match group
    case ReturnGroup => TypedAt(v, ReturnTo)
    case SessionGroup =>
      && TypedAt(v, AccessTokenTTL) && TypedAt(v, SessionTTL) && TypedAt(v, RefreshTokenTTL) && TypedAt(v, Rotation)
      && TypedAt(v, RecentAuthenticationEnabled) && TypedAt(v, RecentAuthenticationWindow)
    case EventsGroup => TypedAt(v, WebhookEvents)
    case TimingGroup => TypedAt(v, WebhookTimeout) && TypedAt(v, WebhookStaleAfter)
    case ChallengeGroup => TypedAt(v, ChallengeTTL) && TypedAt(v, VerificationCodeTTL)
  }

  lemma TypedOnKeys(v: Values, group: Group)
    ensures TypedOn(v, group) <==> forall key <- KeysOf(group) :: TypedAt(v, key)
  {
    KeysOfMembers(group);
  }

  /** The group's validator; fields outside the group get the fixed values of the source. */
  predicate GroupOk(c: Context, group: Group, v: Values)
    requires TypedOn(v, group)
  {
    match group
    case ReturnGroup => ReturnToOk(c, v)
    case SessionGroup => SessionValuesOk(c, v)
    case EventsGroup => ValidWebhook(c, SECOND, 2 * SECOND, c.events(v[WebhookEvents].text))
    case TimingGroup => ValidWebhook(c, v[WebhookTimeout].span, v[WebhookStaleAfter].span, [])
    case ChallengeGroup => ValidChallenge(v[ChallengeTTL].span, v[VerificationCodeTTL].span, 1, 0, 0)
  }

  lemma KeysOfMembers(group: Group)
    ensures forall key: Key :: key in KeysOf(group) <==> GroupOf(key) == Some(group)
  {
    match group
    case ReturnGroup => assert KeysOf(group)[0] == ReturnTo;
    case SessionGroup =>
      assert KeysOf(group)[0] == AccessTokenTTL && KeysOf(group)[1] == SessionTTL && KeysOf(group)[2] == RefreshTokenTTL
        && KeysOf(group)[3] == Rotation && KeysOf(group)[4] == RecentAuthenticationEnabled
        && KeysOf(group)[5] == RecentAuthenticationWindow;
    case EventsGroup => assert KeysOf(group)[0] == WebhookEvents;
    case TimingGroup => assert KeysOf(group)[0] == WebhookTimeout && KeysOf(group)[1] == WebhookStaleAfter;
    case ChallengeGroup => assert KeysOf(group)[0] == ChallengeTTL && KeysOf(group)[1] == VerificationCodeTTL;
  }

  /** The verdict depends on the group's own keys only. */
  lemma GroupOkLocal(c: Context, group: Group, v: Values, w: Values)
    requires TypedOn(v, group) && TypedOn(w, group)
    requires forall key <- KeysOf(group) :: key in v && key in w && v[key] == w[key]
    ensures GroupOk(c, group, v) == GroupOk(c, group, w)
  {
    KeysOfMembers(group);
  }

  /** The session, webhook, challenge and return-path checks hold exactly when every group's
      projection check and the bounds on the counts do. */
  lemma GroupsMakeChecks(c: Context, v: Values)
    requires Complete(v)
    ensures forall group: Group :: TypedOn(v, group)
    ensures ChecksOk(c, v) <==> CountsOk(v) && forall group: Group :: GroupOk(c, group, v)
  {
    CompleteAt(v);
    assert GroupOk(c, ReturnGroup, v) == ReturnToOk(c, v);
    assert GroupOk(c, SessionGroup, v) == SessionValuesOk(c, v);
    assert WebhookValuesOk(c, v) == (GroupOk(c, EventsGroup, v) && GroupOk(c, TimingGroup, v));
    assert ChallengeValuesOk(v) == (GroupOk(c, ChallengeGroup, v) && CountsOk(v));
  }
}
