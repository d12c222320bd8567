/**
 * The host agent's permission lattice (scripts/host-automation-agent.mjs,
 * `modeAtLeast` and `canBrowserWrite`). The configured mode is the
 * lower-cased `HOST_AUTOMATION_MODE`, taken here as given.
 */
module Modes {
  /** The four named modes, weakest first. */
  const Named: seq<string> := ["read-only", "browser-write", "desktop-write", "system-write"]

  /** `levels[name] ?? 0`: the position of a named mode, 0 for any other name. */
  function Level(mode: string): (n: nat)
    ensures n <= 3
    ensures mode !in Named ==> n == 0
  {
    if mode == "browser-write" then 1
    else if mode == "desktop-write" then 2
    else if mode == "system-write" then 3
    else 0
  }

  predicate ModeAtLeast(mode: string, target: string) {
    Level(mode) >= Level(target)
  }

  predicate CanBrowserWrite(mode: string) {
    ModeAtLeast(mode, "browser-write")
  }

  /** The levels are the positions in the list of named modes, so the order is strict on names. */
  lemma LevelIsPosition(i: nat)
    requires i < |Named|
    ensures Level(Named[i]) == i
  {
  }

  /** Browser writes are allowed in exactly the three write modes; an unknown mode is read-only. */
  lemma CanBrowserWriteIff(mode: string)
    ensures CanBrowserWrite(mode) <==> mode == "browser-write" || mode == "desktop-write" || mode == "system-write"
  {
  }

  lemma ModeAtLeastReflexive(mode: string)
    ensures ModeAtLeast(mode, mode)
  {
  }

  lemma ModeAtLeastTransitive(a: string, b: string, c: string)
    requires ModeAtLeast(a, b) && ModeAtLeast(b, c)
    ensures ModeAtLeast(a, c)
  {
  }

  /** Any two modes are comparable. */
  lemma ModeAtLeastTotal(a: string, b: string)
    ensures ModeAtLeast(a, b) || ModeAtLeast(b, a)
  {
  }

  /** Raising the configured mode never withdraws a permission. */
  lemma ModeAtLeastMonotone(weaker: string, stronger: string, target: string)
    requires Level(weaker) <= Level(stronger)
    ensures ModeAtLeast(weaker, target) ==> ModeAtLeast(stronger, target)
  {
  }

  /** An unknown target name asks for nothing; an unknown configured mode grants only what read-only grants. */
  lemma UnknownNames(mode: string, target: string)
    ensures target !in Named ==> ModeAtLeast(mode, target)
    ensures mode !in Named ==> (ModeAtLeast(mode, target) <==> ModeAtLeast("read-only", target))
  {
  }
}
