/** The experiment wrapper of `src/amo/withExperiment.js`: the weighted
    variant allocator, the feature-flag lookup, the wrap-time checks, the
    cookie reconciliation done when the wrapper is constructed and the props
    it injects when it renders.

    Cookie I/O, the analytics sink and `Math.random` are not called: the
    cookie is an input map, the cookie write and the enrollment event are
    returned values, and the random draw is an input. */
module WithExperiment {
  import opened Wrappers
  import Text

  // ---------------------------------------------------------------------
  // Constants
  // ---------------------------------------------------------------------

  /** Thirty days, in seconds. */
  const DEFAULT_COOKIE_MAX_AGE: int := 30 * 24 * 60 * 60
  const EXPERIMENT_COOKIE_NAME: string := "frontend_active_experiments"
  const EXPERIMENT_ENROLLMENT_CATEGORY: string := "AMO Experiment Enrollment -"
  /** The variant id meaning "resolved, but not enrolled". */
  const NOT_IN_EXPERIMENT: string := "notInExperiment"

  datatype CookieConfig = CookieConfig(maxAge: int, path: string, secure: bool)

  const DefaultCookieConfig: CookieConfig := CookieConfig(DEFAULT_COOKIE_MAX_AGE, "/", true)

  // ---------------------------------------------------------------------
  // Variant allocator (`getVariant`)
  // ---------------------------------------------------------------------

  datatype ExperimentVariant = ExperimentVariant(id: string, percentage: real)

  datatype AllocationError =
    | PercentagesDoNotSumToOne   // "The sum of all percentages in `variants` must be 1"
    | UnableToAllocate           // "Unable to allocate a user to a variant"

  /** The running total of the first `k` percentages, accumulated from the
      left as `reduce` and the allocation loop do. */
  function PartialSum(variants: seq<ExperimentVariant>, k: nat): real
    requires k <= |variants|
  {
    if k == 0 then 0.0 else PartialSum(variants, k - 1) + variants[k - 1].percentage
  }

  function SumOfPercentages(variants: seq<ExperimentVariant>): real {
    PartialSum(variants, |variants|)
  }

  /** Variant `i` owns the half-open interval `(PartialSum(i), PartialSum(i+1)]`. */
  predicate Covers(variants: seq<ExperimentVariant>, i: int, draw: real) {
    0 <= i < |variants| && PartialSum(variants, i) < draw <= PartialSum(variants, i + 1)
  }

  predicate NonNegativePercentages(variants: seq<ExperimentVariant>) {
    forall i :: 0 <= i < |variants| ==> variants[i].percentage >= 0.0
  }

  /** The allocation loop, from variant `i` on, with `variantMin` the running
      total so far; answers the index of the first interval holding `draw`. */
  function Allocate(variants: seq<ExperimentVariant>, draw: real, i: nat, variantMin: real): (r: Option<nat>)
    requires i <= |variants| && variantMin == PartialSum(variants, i)
    ensures r.Some? ==> i <= r.value < |variants| && Covers(variants, r.value, draw)
    ensures r.Some? ==> forall j :: i <= j < r.value ==> !Covers(variants, j, draw)
    ensures r.None? ==> forall j :: i <= j < |variants| ==> !Covers(variants, j, draw)
    decreases |variants| - i
  {
    if i == |variants| then None
    else
      var variantMax := variantMin + variants[i].percentage;
      if variantMin < draw <= variantMax then Some(i)
      else Allocate(variants, draw, i + 1, variantMax)
  }

  /** `getVariant({randomizer, variants})` with `draw` the randomizer's value.
      The sum is checked before the draw is looked at. */
  function GetVariant(variants: seq<ExperimentVariant>, draw: real): (r: Result<ExperimentVariant, AllocationError>)
    ensures r == Err(PercentagesDoNotSumToOne) <==> SumOfPercentages(variants) != 1.0
    ensures r == Err(UnableToAllocate) <==>
              SumOfPercentages(variants) == 1.0 && forall j :: 0 <= j < |variants| ==> !Covers(variants, j, draw)
    ensures r.Ok? ==> exists i :: Covers(variants, i, draw) && r.value == variants[i]
                                 && forall j :: 0 <= j < i ==> !Covers(variants, j, draw)
  {
    if SumOfPercentages(variants) != 1.0 then Err(PercentagesDoNotSumToOne)
    else
      match Allocate(variants, draw, 0, 0.0)
      case Some(i) => Ok(variants[i])
      case None => Err(UnableToAllocate)
  }

  lemma {:induction false} PartialSumMonotone(variants: seq<ExperimentVariant>, i: nat, k: nat)
    requires NonNegativePercentages(variants) && i <= k <= |variants|
    ensures PartialSum(variants, i) <= PartialSum(variants, k)
    decreases k - i
  {
    if i < k {
      PartialSumMonotone(variants, i, k - 1);
    }
  }

  /** From the first index `i` on, some interval holds any draw in
      `(PartialSum(i), PartialSum(n)]` (percentages non-negative). */
  lemma {:induction false} SomeIntervalCovers(variants: seq<ExperimentVariant>, draw: real, i: nat)
    requires NonNegativePercentages(variants) && i < |variants|
    requires PartialSum(variants, i) < draw <= SumOfPercentages(variants)
    ensures exists j :: i <= j < |variants| && Covers(variants, j, draw)
    decreases |variants| - i
  {
    if draw <= PartialSum(variants, i + 1) {
      assert Covers(variants, i, draw);
    } else {
      SomeIntervalCovers(variants, draw, i + 1);
    }
  }

  /** A well-formed variant list allocates every draw of `(0, 1]` to one of
      its own variants. */
  lemma WellFormedVariantsAlwaysAllocate(variants: seq<ExperimentVariant>, draw: real)
    requires NonNegativePercentages(variants) && SumOfPercentages(variants) == 1.0
    requires 0.0 < draw <= 1.0
    ensures GetVariant(variants, draw).Ok?
    ensures GetVariant(variants, draw).value in variants
  {
    assert |variants| > 0;
    SomeIntervalCovers(variants, draw, 0);
  }

  /** The allocator picks the first variant whose running total reaches
      the draw. */
  lemma FirstRunningTotalReachingDraw(variants: seq<ExperimentVariant>, draw: real, i: nat)
    requires SumOfPercentages(variants) == 1.0
    requires 0.0 < draw && i < |variants|
    requires draw <= PartialSum(variants, i + 1)
    requires forall j :: 1 <= j <= i ==> PartialSum(variants, j) < draw
    ensures GetVariant(variants, draw) == Ok(variants[i])
  {
    if i == 0 {
      assert Covers(variants, 0, draw);
    } else {
      assert PartialSum(variants, i) < draw;
      assert Covers(variants, i, draw);
    }
    var r := GetVariant(variants, draw);
    var k :| Covers(variants, k, draw) && r.value == variants[k] && forall j :: 0 <= j < k ==> !Covers(variants, j, draw);
    assert k == i;
  }

  /** A draw of zero or less (possible for a randomizer that can return 0)
      matches no interval: the allocator reports "Unable to allocate". */
  lemma NonPositiveDrawIsUnallocated(variants: seq<ExperimentVariant>, draw: real)
    requires NonNegativePercentages(variants) && SumOfPercentages(variants) == 1.0
    requires draw <= 0.0
    ensures GetVariant(variants, draw) == Err(UnableToAllocate)
  {
    forall j | 0 <= j < |variants|
      ensures !Covers(variants, j, draw)
    {
      PartialSumMonotone(variants, 0, j);
    }
  }

  /** The allocation examples of the unit tests: 0.1 / 0.2 / 0.7. */
  lemma AllocationExamples()
    ensures var vs := [ExperimentVariant("some-variant-a", 0.1), ExperimentVariant("some-variant-b", 0.2),
                       ExperimentVariant(NOT_IN_EXPERIMENT, 0.7)];
            && GetVariant(vs, 0.01) == Ok(vs[0])
            && GetVariant(vs, 0.1) == Ok(vs[0])
            && GetVariant(vs, 0.11) == Ok(vs[1])
            && GetVariant(vs, 0.3) == Ok(vs[1])
            && GetVariant(vs, 0.31) == Ok(vs[2])
            && GetVariant(vs, 0.99) == Ok(vs[2])
    ensures GetVariant([ExperimentVariant("a", 1.0 / 3.0), ExperimentVariant("b", 1.0 / 3.0)], 1.0)
            == Err(PercentagesDoNotSumToOne)
    ensures GetVariant([ExperimentVariant("a", 2.0 / 3.0), ExperimentVariant("b", 2.0 / 3.0)], 1.0)
            == Err(PercentagesDoNotSumToOne)
  {
    var vs := [ExperimentVariant("some-variant-a", 0.1), ExperimentVariant("some-variant-b", 0.2),
               ExperimentVariant(NOT_IN_EXPERIMENT, 0.7)];
    assert PartialSum(vs, 1) == 0.1;
    assert PartialSum(vs, 2) == 0.3;
    assert PartialSum(vs, 3) == 1.0;
    FirstRunningTotalReachingDraw(vs, 0.01, 0);
    FirstRunningTotalReachingDraw(vs, 0.1, 0);
    FirstRunningTotalReachingDraw(vs, 0.11, 1);
    FirstRunningTotalReachingDraw(vs, 0.3, 1);
    FirstRunningTotalReachingDraw(vs, 0.31, 2);
    FirstRunningTotalReachingDraw(vs, 0.99, 2);
    var third := [ExperimentVariant("a", 1.0 / 3.0), ExperimentVariant("b", 1.0 / 3.0)];
    assert PartialSum(third, 2) == 2.0 / 3.0;
    var twoThirds := [ExperimentVariant("a", 2.0 / 3.0), ExperimentVariant("b", 2.0 / 3.0)];
    assert PartialSum(twoThirds, 2) == 4.0 / 3.0;
  }

  // ---------------------------------------------------------------------
  // Feature flags (`isExperimentEnabled`)
  // ---------------------------------------------------------------------

  /** A value of the `experiments` configuration map: a boolean or anything else. */
  datatype ConfigValue = BoolValue(b: bool) | NonBoolValue

  type ExperimentFlags = map<string, ConfigValue>

  /** Enabled only when the configured value is exactly `true`. */
  predicate IsExperimentEnabled(flags: ExperimentFlags, id: string) {
    id in flags && flags[id].BoolValue? && flags[id].b
  }

  lemma EnabledOnlyWhenExactlyTrue(flags: ExperimentFlags, id: string)
    ensures IsExperimentEnabled(flags, id) <==> id in flags && flags[id] == BoolValue(true)
    ensures id !in flags ==> !IsExperimentEnabled(flags, id)
  {
  }

  // ---------------------------------------------------------------------
  // Wrap-time checks (`withExperiment({...})(Component)`)
  // ---------------------------------------------------------------------

  predicate IsDigit(c: char) {
    '0' <= c <= '9'
  }

  /** Characters the regular-expression `.` does not match. */
  predicate IsLineTerminator(c: char) {
    c == '\n' || c == '\r' || c == '\U{2028}' || c == '\U{2029}'
  }

  /** `\d{8}_.+` matches starting at position `i` (one character of `.+`
      is enough for a match). */
  predicate IdPatternAt(s: string, i: int) {
    0 <= i && i + 10 <= |s|
    && (forall k :: i <= k < i + 8 ==> IsDigit(s[k]))
    && s[i + 8] == '_'
    && !IsLineTerminator(s[i + 9])
  }

  /** `EXPERIMENT_ID_REGEXP.test(s)`: the pattern is not anchored. */
  ghost predicate MatchesIdPattern(s: string) {
    exists i :: IdPatternAt(s, i)
  }

  /** The regular-expression search, trying every start position from `from` on. */
  function SearchIdPattern(s: string, from: nat): (r: bool)
    ensures r <==> exists i :: from <= i && IdPatternAt(s, i)
    decreases |s| - from
  {
    if from + 10 > |s| then false
    else IdPatternAt(s, from) || SearchIdPattern(s, from + 1)
  }

  datatype WrapError = IdRequired | IdPatternMismatch | VariantsRequired

  /** The configuration a wrapped component runs with. */
  datatype ExperimentSetup = ExperimentSetup(id: string, variants: seq<ExperimentVariant>, cookieConfig: CookieConfig)

  /** The three `invariant` checks made when a component is wrapped; an
      absent `cookieConfig` defaults to 30 days, path "/", secure. An empty
      variant list is present (an empty array is truthy) and passes. */
  function Wrap(id: Option<string>, variants: Option<seq<ExperimentVariant>>, cookieConfig: Option<CookieConfig>)
    : (r: Result<ExperimentSetup, WrapError>)
    ensures r == Err(IdRequired) <==> id.None? || id.value == ""
    ensures r == Err(IdPatternMismatch) <==> id.Some? && id.value != "" && !MatchesIdPattern(id.value)
    ensures r.Ok? <==> id.Some? && id.value != "" && MatchesIdPattern(id.value) && variants.Some?
    ensures r.Ok? ==> r.value.id == id.value && r.value.variants == variants.value
    ensures r.Ok? && cookieConfig.None? ==> r.value.cookieConfig == DefaultCookieConfig
    ensures r.Ok? && cookieConfig.Some? ==> r.value.cookieConfig == cookieConfig.value
  {
    if id.None? || id.value == "" then Err(IdRequired)
    else if !SearchIdPattern(id.value, 0) then Err(IdPatternMismatch)
    else if variants.None? then Err(VariantsRequired)
    else Ok(ExperimentSetup(id.value, variants.value, cookieConfig.GetOr(DefaultCookieConfig)))
  }

  lemma WrapExamples()
    ensures Wrap(Some("bad-id"), Some([]), None) == Err(IdPatternMismatch)
    ensures Wrap(Some("20210219_some-id"), None, None) == Err(VariantsRequired)
    ensures Wrap(Some("20210219_some-id"), Some([]), None).Ok?
  {
    assert IdPatternAt("20210219_some-id", 0);
  }

  // ---------------------------------------------------------------------
  // Reconciliation on construction
  // ---------------------------------------------------------------------

  /** The experiment map held by the cookie: experiment id to variant id. */
  type RegisteredExperiments = map<string, string>

  /** A cookie recorded in the application state during server rendering,
      with its JSON value already parsed. */
  datatype StoredCookie = StoredCookie(name: string, value: RegisteredExperiments)

  datatype EnrollmentEvent = EnrollmentEvent(action: string, category: string)

  datatype CookieWrite = CookieWrite(name: string, value: RegisteredExperiments, config: CookieConfig)

  /** What the constructor decides: the map it would store, whether it drew
      a variant, the event it sends and the cookie write it makes. */
  datatype Reconciliation = Reconciliation(
    experimentsToStore: RegisteredExperiments,
    enrolled: bool,
    event: Option<EnrollmentEvent>,
    write: Option<CookieWrite>)

  /** `cookies.get(EXPERIMENT_COOKIE_NAME) || {}` */
  function GetExperiments(cookie: Option<RegisteredExperiments>): RegisteredExperiments {
    cookie.GetOr(map[])
  }

  predicate CookieIncludesExperiment(registered: RegisteredExperiments, id: string) {
    id in registered
  }

  /** Stored cookie `i` is an experiment cookie listing `id`. */
  predicate ListsExperiment(storedCookies: seq<StoredCookie>, i: int, id: string) {
    0 <= i < |storedCookies|
    && storedCookies[i].name == EXPERIMENT_COOKIE_NAME
    && CookieIncludesExperiment(storedCookies[i].value, id)
  }

  /** Some stored cookie with the experiment cookie's name lists `id`. */
  function StoredCookiesIncludeExperiment(storedCookies: seq<StoredCookie>, id: string): (r: bool)
    ensures r <==> exists i :: ListsExperiment(storedCookies, i, id)
  {
    if storedCookies == [] then false
    else if ListsExperiment(storedCookies, 0, id) then true
    else
      var rest := StoredCookiesIncludeExperiment(storedCookies[1..], id);
      assert rest ==> exists i :: ListsExperiment(storedCookies, i, id) by {
        if rest {
          var i :| ListsExperiment(storedCookies[1..], i, id);
          assert ListsExperiment(storedCookies, i + 1, id);
        }
      }
      assert (exists i :: ListsExperiment(storedCookies, i, id)) ==> rest by {
        if exists i :: ListsExperiment(storedCookies, i, id) {
          var i :| ListsExperiment(storedCookies, i, id);
          assert ListsExperiment(storedCookies[1..], i - 1, id);
        }
      }
      rest
  }

  /** The cookie entries whose experiment is still enabled. */
  function EnabledEntries(flags: ExperimentFlags, registered: RegisteredExperiments): RegisteredExperiments {
    map k | k in registered && IsExperimentEnabled(flags, k) :: registered[k]
  }

  /** The constructor should draw a variant and record it. */
  predicate ShouldEnroll(setup: ExperimentSetup, flags: ExperimentFlags, registered: RegisteredExperiments,
                         storedCookies: seq<StoredCookie>) {
    IsExperimentEnabled(flags, setup.id)
    && !CookieIncludesExperiment(registered, setup.id)
    && !StoredCookiesIncludeExperiment(storedCookies, setup.id)
  }

  /** Some cookie entry belongs to a disabled experiment. */
  predicate CleanupNeeded(flags: ExperimentFlags, registered: RegisteredExperiments) {
    exists k :: k in registered && !IsExperimentEnabled(flags, k)
  }

  function EnrollmentCategory(id: string): string {
    EXPERIMENT_ENROLLMENT_CATEGORY + " " + id
  }

  /** The `WithExperiment` constructor. Fails only with the allocator's error
      when a draw is needed and the variants are misconfigured. */
  function Construct(setup: ExperimentSetup, flags: ExperimentFlags, cookie: Option<RegisteredExperiments>,
                     storedCookies: seq<StoredCookie>, draw: real): (r: Result<Reconciliation, AllocationError>)
    ensures var registered := GetExperiments(cookie);
            r.Err? <==> ShouldEnroll(setup, flags, registered, storedCookies) && GetVariant(setup.variants, draw).Err?
    ensures r.Err? ==> r.error == GetVariant(setup.variants, draw).error
    ensures r.Ok? ==>
              var registered := GetExperiments(cookie);
              var o := r.value;
              // enrollment: exactly one draw, only when enabled and not yet recorded anywhere
              && (o.enrolled <==> ShouldEnroll(setup, flags, registered, storedCookies))
              // the stored map: disabled entries dropped, the drawn variant added, nothing else changed
              && (forall k :: k in o.experimentsToStore <==>
                                (k in registered && IsExperimentEnabled(flags, k)) || (o.enrolled && k == setup.id))
              && (forall k :: k in registered && IsExperimentEnabled(flags, k) && k != setup.id ==>
                                k in o.experimentsToStore && o.experimentsToStore[k] == registered[k])
              && (!o.enrolled && setup.id in o.experimentsToStore ==>
                                o.experimentsToStore[setup.id] == registered[setup.id])
              && (o.enrolled ==> setup.id in o.experimentsToStore
                                 && o.experimentsToStore[setup.id] == GetVariant(setup.variants, draw).value.id)
              // the enrollment event
              && (o.event.Some? <==> o.enrolled && o.experimentsToStore[setup.id] != NOT_IN_EXPERIMENT)
              && (o.event.Some? ==> o.event.value == EnrollmentEvent(o.experimentsToStore[setup.id],
                                                                     "AMO Experiment Enrollment - " + setup.id))
              // at most one cookie write, only when something changed
              && (o.write.Some? <==> o.enrolled || CleanupNeeded(flags, registered))
              && (o.write.Some? ==> o.write.value == CookieWrite(EXPERIMENT_COOKIE_NAME, o.experimentsToStore,
                                                                 setup.cookieConfig))
  {
    var registered := GetExperiments(cookie);
    var kept := EnabledEntries(flags, registered);
    if ShouldEnroll(setup, flags, registered, storedCookies) then
      var variant :- GetVariant(setup.variants, draw);
      var toStore := kept[setup.id := variant.id];
      var event := if variant.id != NOT_IN_EXPERIMENT
                   then Some(EnrollmentEvent(variant.id, EnrollmentCategory(setup.id)))
                   else None;
      Ok(Reconciliation(toStore, true, event, Some(CookieWrite(EXPERIMENT_COOKIE_NAME, toStore, setup.cookieConfig))))
    else
      var write := if CleanupNeeded(flags, registered)
                   then Some(CookieWrite(EXPERIMENT_COOKIE_NAME, kept, setup.cookieConfig))
                   else None;
      Ok(Reconciliation(kept, false, None, write))
  }

  // ---------------------------------------------------------------------
  // Injected props (`render`)
  // ---------------------------------------------------------------------

  datatype InjectedProps = InjectedProps(isExperimentEnabled: bool, isUserInExperiment: bool, variant: Option<string>)

  function Render(setup: ExperimentSetup, flags: ExperimentFlags, cookie: Option<RegisteredExperiments>): (p: InjectedProps)
    ensures p.isExperimentEnabled == IsExperimentEnabled(flags, setup.id)
    ensures p.variant.Some? <==> IsExperimentEnabled(flags, setup.id) && setup.id in GetExperiments(cookie)
    ensures p.variant.Some? ==> p.variant.value == GetExperiments(cookie)[setup.id]
    ensures p.isUserInExperiment <==> p.variant.Some? && p.variant.value != NOT_IN_EXPERIMENT
  {
    var isEnabled := IsExperimentEnabled(flags, setup.id);
    var registered := GetExperiments(cookie);
    var variant := if isEnabled && CookieIncludesExperiment(registered, setup.id)
                   then Some(registered[setup.id]) else None;
    InjectedProps(isEnabled, variant.Some? && variant.value != NOT_IN_EXPERIMENT, variant)
  }

  // ---------------------------------------------------------------------
  // Properties across passes
  // ---------------------------------------------------------------------

  /** The cookie as it reads after the constructor's write (if any). */
  function CookieAfter(cookie: Option<RegisteredExperiments>, o: Reconciliation): Option<RegisteredExperiments> {
    if o.write.Some? then Some(o.write.value.value) else cookie
  }

  /** Re-running the constructor on the cookie it left behind writes nothing,
      sends nothing and keeps the map, whatever the new draw. */
  lemma ReconcileIsIdempotent(setup: ExperimentSetup, flags: ExperimentFlags, cookie: Option<RegisteredExperiments>,
                              storedCookies: seq<StoredCookie>, draw: real, draw': real)
    requires Construct(setup, flags, cookie, storedCookies, draw).Ok?
    ensures var o := Construct(setup, flags, cookie, storedCookies, draw).value;
            var again := Construct(setup, flags, CookieAfter(cookie, o), storedCookies, draw');
            again.Ok? && again.value.write.None? && again.value.event.None? && !again.value.enrolled
            && GetExperiments(CookieAfter(cookie, o)) == again.value.experimentsToStore
  {
    var o := Construct(setup, flags, cookie, storedCookies, draw).value;
    var registered := GetExperiments(cookie);
    var after := GetExperiments(CookieAfter(cookie, o));
    if o.write.Some? {
      assert after == o.experimentsToStore;
      assert !CleanupNeeded(flags, after);
      assert !ShouldEnroll(setup, flags, after, storedCookies);
    } else {
      assert after == registered;
      assert !CleanupNeeded(flags, registered);
      assert !o.enrolled;
    }
    var again := Construct(setup, flags, CookieAfter(cookie, o), storedCookies, draw').value;
    assert again.experimentsToStore == after;
  }

  /** A returning user whose cookie already lists every enabled experiment,
      this one included, causes no cookie write and no event. */
  lemma RegisteredUserCausesNoWrite(setup: ExperimentSetup, flags: ExperimentFlags, registered: RegisteredExperiments,
                                    storedCookies: seq<StoredCookie>, draw: real)
    requires setup.id in registered
    requires forall k :: k in registered ==> IsExperimentEnabled(flags, k)
    ensures var r := Construct(setup, flags, Some(registered), storedCookies, draw);
            r.Ok? && r.value.write.None? && r.value.event.None? && r.value.experimentsToStore == registered
  {
  }

  /** After enrolling, the next render exposes the drawn variant, and the
      user is reported in the experiment exactly when an event was sent. */
  lemma RenderAfterEnrollment(setup: ExperimentSetup, flags: ExperimentFlags, cookie: Option<RegisteredExperiments>,
                              storedCookies: seq<StoredCookie>, draw: real)
    requires Construct(setup, flags, cookie, storedCookies, draw).Ok?
    requires Construct(setup, flags, cookie, storedCookies, draw).value.enrolled
    ensures var o := Construct(setup, flags, cookie, storedCookies, draw).value;
            var p := Render(setup, flags, CookieAfter(cookie, o));
            && p.variant == Some(GetVariant(setup.variants, draw).value.id)
            && (p.isUserInExperiment <==> o.event.Some?)
  {
  }

  /** A disabled experiment never draws, never sends an event, never leaves
      its id in the stored map, and renders with no variant. */
  lemma DisabledExperimentIsInert(setup: ExperimentSetup, flags: ExperimentFlags, cookie: Option<RegisteredExperiments>,
                                  storedCookies: seq<StoredCookie>, draw: real)
    requires !IsExperimentEnabled(flags, setup.id)
    ensures var r := Construct(setup, flags, cookie, storedCookies, draw);
            r.Ok? && !r.value.enrolled && r.value.event.None? && setup.id !in r.value.experimentsToStore
    ensures Render(setup, flags, cookie) == InjectedProps(false, false, None)
  {
  }

  /** The clean-up scenario: experiment A disabled, B enabled and already
      registered; resolving B rewrites the cookie with B's entry only. */
  lemma CleanupExample(setup: ExperimentSetup, draw: real)
    requires setup.id == "20210219_expB"
    ensures var flags := map["20210219_expA" := BoolValue(false), "20210219_expB" := BoolValue(true)];
            var cookie := map["20210219_expA" := "v1", "20210219_expB" := "v2"];
            var r := Construct(setup, flags, Some(cookie), [], draw);
            r.Ok? && r.value.event.None?
            && r.value.write == Some(CookieWrite(EXPERIMENT_COOKIE_NAME, map["20210219_expB" := "v2"], setup.cookieConfig))
  {
    var flags := map["20210219_expA" := BoolValue(false), "20210219_expB" := BoolValue(true)];
    var cookie := map["20210219_expA" := "v1", "20210219_expB" := "v2"];
    assert !IsExperimentEnabled(flags, "20210219_expA");
    assert IsExperimentEnabled(flags, "20210219_expB");
    assert CleanupNeeded(flags, cookie);
    assert !ShouldEnroll(setup, flags, cookie, []);
    var o := Construct(setup, flags, Some(cookie), [], draw).value;
    assert o.experimentsToStore == map["20210219_expB" := "v2"];
  }
}
