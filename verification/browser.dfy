/**
 * Choosing a browser and validating the indices of `selectBrowserTab`
 * (scripts/host-automation-agent.mjs). The AppleScript that switches the
 * tab is not modelled; its outcome is a parameter.
 */
module Browser {
  import opened Wrappers
  import opened JsString
  import opened JsNumber
  import opened Agent

  /** Browsers driven through the Chromium scripting dictionary. */
  const ChromeFamily: set<string> := {"Google Chrome", "Chromium", "Brave Browser", "Microsoft Edge"}

  /** `pickBrowserApp`: the requested application, or Google Chrome when none is named. */
  function PickBrowserApp(preferred: Option<string>): (app: string)
    ensures app != ""
    ensures preferred.Some? && preferred.value != "" ==> app == preferred.value
    ensures preferred.None? || preferred.value == "" ==> app == "Google Chrome" && app in ChromeFamily
  {
    if preferred.Some? && preferred.value != "" then preferred.value else "Google Chrome"
  }

  /** A field of the JSON request body. */
  datatype JsonArg = Absent | Null | BoolArg(b: bool) | NumberArg(n: Num) | TextArg(s: string) | CompoundArg

  /** `Number(value)` for a JSON value; objects and arrays are taken to give NaN. */
  function ToNumber(a: JsonArg): (n: Num)
    ensures a.NumberArg? ==> n == a.n
    ensures a.Absent? || a.CompoundArg? ==> n == NaN
    ensures a.Null? ==> n == Finite(0.0)
    ensures a.TextArg? ==> n == StringToNumber(a.s)
  {
    match a
    case Absent => NaN
    case Null => Finite(0.0)
    case BoolArg(b) => Finite(if b then 1.0 else 0.0)
    case NumberArg(n) => n
    case TextArg(s) => StringToNumber(s)
    case CompoundArg => NaN
  }

  /** `Number(windowIndex ?? 1)`. */
  function WindowNumber(windowIndex: JsonArg): (n: Num)
    ensures windowIndex.Absent? || windowIndex.Null? ==> n == Finite(1.0)
    ensures !windowIndex.Absent? && !windowIndex.Null? ==> n == ToNumber(windowIndex)
  {
    if windowIndex.Absent? || windowIndex.Null? then Finite(1.0) else ToNumber(windowIndex)
  }

  /** `Number.isInteger(n) && n >= 1`. */
  predicate PositiveInteger(n: Num) {
    IsInteger(n) && n.r >= 1.0
  }

  function Count(n: Num): (c: nat)
    requires PositiveInteger(n)
    ensures c >= 1 && c as real == n.r
  {
    n.r.Floor
  }

  datatype Family = ChromeLike | SafariBrowser

  /** What the script is asked to do: which browser, which window and which tab. */
  datatype TabSelection = TabSelection(app: string, family: Family, window: nat, tab: nat)

  /**
   * The checks `selectBrowserTab` makes before running any script: window
   * first, then tab, then whether the browser is scriptable.
   */
  function PlanSelectTab(appName: Option<string>, windowIndex: JsonArg, tabIndex: JsonArg): (r: Result<TabSelection, AgentError>)
    ensures !PositiveInteger(WindowNumber(windowIndex)) ==> r == Failure(BadRequest("windowIndex must be a positive integer"))
    ensures PositiveInteger(WindowNumber(windowIndex)) && !PositiveInteger(ToNumber(tabIndex)) ==>
              r == Failure(BadRequest("tabIndex must be a positive integer"))
    ensures r.Success? ==>
              && r.value.app == PickBrowserApp(appName)
              && (r.value.family == ChromeLike <==> r.value.app in ChromeFamily)
              && (r.value.family == SafariBrowser <==> r.value.app == "Safari")
              && r.value.window as real == WindowNumber(windowIndex).r && r.value.window >= 1
              && r.value.tab as real == ToNumber(tabIndex).r && r.value.tab >= 1
    ensures r.Failure? ==> r.error.status == Some(400)
  {
    var app := PickBrowserApp(appName);
    var w := WindowNumber(windowIndex);
    var t := ToNumber(tabIndex);
    if !PositiveInteger(w) then Failure(BadRequest("windowIndex must be a positive integer"))
    else if !PositiveInteger(t) then Failure(BadRequest("tabIndex must be a positive integer"))
    else if app in ChromeFamily then Success(TabSelection(app, ChromeLike, Count(w), Count(t)))
    else if app == "Safari" then Success(TabSelection(app, SafariBrowser, Count(w), Count(t)))
    else Failure(BadRequest("Unsupported browser app: " + app))
  }

  /** How running the AppleScript went. */
  datatype ScriptOutcome = ScriptDone | NotMac | ScriptFailed(message: string, stderr: string)

  /** The reply body: `{ok: true, action: "select-tab", appName, windowIndex, tabIndex}`. */
  datatype TabSelected = TabSelected(action: string, appName: string, windowIndex: nat, tabIndex: nat)

  /** `runAppleScript`'s failures: 501 off macOS, or the child process error with its stderr. */
  function ScriptError(o: ScriptOutcome): AgentError
    requires !o.ScriptDone?
  {
    if o.NotMac? then AgentError("macOS-only endpoint", Some(501), None)
    else AgentError(o.message, None, Some(o.stderr))
  }

  /** `selectBrowserTab`: validate, run the script, echo the validated selection. */
  function SelectBrowserTab(appName: Option<string>, windowIndex: JsonArg, tabIndex: JsonArg,
                            script: ScriptOutcome): (r: Result<TabSelected, AgentError>)
    ensures PlanSelectTab(appName, windowIndex, tabIndex).Failure? ==>
              r == Failure(PlanSelectTab(appName, windowIndex, tabIndex).error)
    ensures r.Success? <==> PlanSelectTab(appName, windowIndex, tabIndex).Success? && script.ScriptDone?
    ensures r.Success? ==>
              var plan := PlanSelectTab(appName, windowIndex, tabIndex).value;
              r.value == TabSelected("select-tab", plan.app, plan.window, plan.tab)
  {
    match PlanSelectTab(appName, windowIndex, tabIndex)
    case Failure(e) => Failure(e)
    case Success(plan) =>
      if script.ScriptDone? then Success(TabSelected("select-tab", plan.app, plan.window, plan.tab))
      else Failure(ScriptError(script))
  }

  /** A request passes validation exactly when both indices are positive integers and the browser is scriptable. */
  lemma PlanSelectTabIff(appName: Option<string>, windowIndex: JsonArg, tabIndex: JsonArg)
    ensures PlanSelectTab(appName, windowIndex, tabIndex).Success? <==>
              && PositiveInteger(WindowNumber(windowIndex)) && PositiveInteger(ToNumber(tabIndex))
              && (PickBrowserApp(appName) in ChromeFamily || PickBrowserApp(appName) == "Safari")
  {
  }

  /** A rejected request never depends on the script: it fails the same way whatever the script would do. */
  lemma ValidationPrecedesScript(appName: Option<string>, windowIndex: JsonArg, tabIndex: JsonArg,
                                 a: ScriptOutcome, b: ScriptOutcome)
    requires PlanSelectTab(appName, windowIndex, tabIndex).Failure?
    ensures SelectBrowserTab(appName, windowIndex, tabIndex, a) == SelectBrowserTab(appName, windowIndex, tabIndex, b)
    ensures AgentEnvelopeOf(SelectBrowserTab(appName, windowIndex, tabIndex, a).error).status == 400
    ensures AgentEnvelopeOf(SelectBrowserTab(appName, windowIndex, tabIndex, a).error).kind == "invalid_request_error"
  {
  }

  /** With no window given, the first window is used; Chrome is the default browser. */
  lemma WindowDefaultsToOne(windowIndex: JsonArg, tab: nat)
    requires windowIndex.Absent? || windowIndex.Null?
    requires tab >= 1
    ensures SelectBrowserTab(None, windowIndex, NumberArg(Finite(tab as real)), ScriptDone)
            == Success(TabSelected("select-tab", "Google Chrome", 1, tab))
  {
  }

  /** An accepted request with a successful script echoes the browser and the two counts. */
  lemma AcceptedSelection(appName: Option<string>, windowIndex: JsonArg, tabIndex: JsonArg)
    requires PlanSelectTab(appName, windowIndex, tabIndex).Success?
    ensures PositiveInteger(WindowNumber(windowIndex)) && PositiveInteger(ToNumber(tabIndex))
    ensures SelectBrowserTab(appName, windowIndex, tabIndex, ScriptDone)
            == Success(TabSelected("select-tab", PickBrowserApp(appName),
                                   Count(WindowNumber(windowIndex)), Count(ToNumber(tabIndex))))
  {
  }

  /** Any JSON values that convert to the counts `window` and `tab` select that tab in Safari. */
  lemma SafariSelection(windowIndex: JsonArg, tabIndex: JsonArg, window: nat, tab: nat)
    requires window >= 1 && tab >= 1
    requires WindowNumber(windowIndex) == Finite(window as real) && ToNumber(tabIndex) == Finite(tab as real)
    ensures SelectBrowserTab(Some("Safari"), windowIndex, tabIndex, ScriptDone)
            == Success(TabSelected("select-tab", "Safari", window, tab))
  {
    var plan := PlanSelectTab(Some("Safari"), windowIndex, tabIndex);
    assert plan == Success(TabSelection("Safari", SafariBrowser, window, tab)) by {
      assert PickBrowserApp(Some("Safari")) == "Safari";
      assert "Safari" !in ChromeFamily;
      assert Count(Finite(window as real)) == window && Count(Finite(tab as real)) == tab;
    }
  }

  lemma DecimalText(n: nat)
    requires n <= MaxSafeInteger
    ensures WindowNumber(TextArg(Decimal(n))) == Finite(n as real)
    ensures ToNumber(TextArg(Decimal(n))) == Finite(n as real)
  {
    DecimalRoundTrip(n);
  }

  /** An index sent as a decimal string is accepted as that number. */
  lemma DecimalStringIndex(window: nat, tab: nat)
    requires 1 <= window <= MaxSafeInteger && 1 <= tab <= MaxSafeInteger
    ensures SelectBrowserTab(Some("Safari"), TextArg(Decimal(window)), TextArg(Decimal(tab)), ScriptDone)
            == Success(TabSelected("select-tab", "Safari", window, tab))
  {
    DecimalText(window);
    DecimalText(tab);
    SafariSelection(TextArg(Decimal(window)), TextArg(Decimal(tab)), window, tab);
  }

  /** A window index written with a leading `+` is accepted as the number after it. */
  lemma PlusSignedIndex(window: nat, tab: nat)
    requires 1 <= window <= MaxSafeInteger && 1 <= tab <= MaxSafeInteger
    ensures SelectBrowserTab(Some("Safari"), TextArg("+" + Decimal(window)), TextArg(Decimal(tab)), ScriptDone)
            == Success(TabSelected("select-tab", "Safari", window, tab))
  {
    SignedDecimalRoundTrip(window);
    DecimalText(tab);
    SafariSelection(TextArg("+" + Decimal(window)), TextArg(Decimal(tab)), window, tab);
  }

  /** A window index written with a leading `-` reads as a number below one and is refused. */
  lemma MinusSignedIndexRefused(n: nat, tabIndex: JsonArg, script: ScriptOutcome)
    requires n <= MaxSafeInteger
    ensures SelectBrowserTab(None, TextArg("-" + Decimal(n)), tabIndex, script)
            == Failure(BadRequest("windowIndex must be a positive integer"))
  {
    SignedDecimalRoundTrip(n);
    assert !PositiveInteger(WindowNumber(TextArg("-" + Decimal(n))));
  }

  /**
   * A window index written with more digits than a double holds reads as
   * Infinity, which is not an integer: the request is refused.
   */
  lemma OverlongIndexRefused(n: nat, tabIndex: JsonArg, script: ScriptOutcome)
    requires n >= OverflowThreshold
    ensures SelectBrowserTab(None, TextArg(Decimal(n)), tabIndex, script)
            == Failure(BadRequest("windowIndex must be a positive integer"))
  {
    DecimalOverflow(n);
    assert WindowNumber(TextArg(Decimal(n))) == PosInf;
  }

  /** A fractional, missing or null tab index is refused before any script runs. */
  lemma BadTabIndexRefused(tabIndex: JsonArg, script: ScriptOutcome)
    requires tabIndex.Absent? || tabIndex.Null? || (tabIndex.NumberArg? && tabIndex.n == Finite(1.5))
    ensures SelectBrowserTab(None, Absent, tabIndex, script) == Failure(BadRequest("tabIndex must be a positive integer"))
  {
  }

  /** A script failure surfaces as a 500 server error carrying the script's stderr; off macOS it is a 501. */
  lemma ScriptFailureEnvelope(appName: Option<string>, windowIndex: JsonArg, tabIndex: JsonArg,
                              message: string, stderr: string)
    requires PlanSelectTab(appName, windowIndex, tabIndex).Success?
    ensures var env := AgentEnvelopeOf(SelectBrowserTab(appName, windowIndex, tabIndex, ScriptFailed(message, stderr)).error);
            env.status == 500 && env.kind == "server_error" && (stderr != "" ==> env.details == Some(stderr))
    ensures AgentEnvelopeOf(SelectBrowserTab(appName, windowIndex, tabIndex, NotMac).error).status == 501
  {
  }
}
