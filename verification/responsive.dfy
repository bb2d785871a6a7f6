/** Viewport-width breakpoint selecting the spawner's population settings. */
module Responsive {

  const MobileBreakpoint: nat := 768
  /** The largest population cap any viewport can select. */
  const LargestCap: nat := 200
  const BurstSize: nat := 10

  /** The population cap, spawn period and initial burst size. */
  datatype Settings = Settings(maxBodies: nat, spawnIntervalMs: nat, initialBurst: nat)

  /** `window.innerWidth < 768`. */
  predicate IsMobile(innerWidth: nat) {
    innerWidth < MobileBreakpoint
  }

  function GetResponsiveSettings(innerWidth: nat): Settings {
    var mobile := IsMobile(innerWidth);
    Settings(if mobile then 60 else 200, if mobile then 600 else 300, 10)
  }

  /** The two settings tuples, by breakpoint. */
  lemma SettingsByBreakpoint(innerWidth: nat)
    ensures innerWidth < 768 ==> GetResponsiveSettings(innerWidth) == Settings(60, 600, 10)
    ensures innerWidth >= 768 ==> GetResponsiveSettings(innerWidth) == Settings(200, 300, 10)
  {
  }

  /** A wider viewport never lowers the cap nor lengthens the spawn period, and
      every viewport's cap is within the largest one. */
  lemma SettingsMonotone(narrow: nat, wide: nat)
    requires narrow <= wide
    ensures GetResponsiveSettings(narrow).maxBodies <= GetResponsiveSettings(wide).maxBodies <= LargestCap
    ensures GetResponsiveSettings(narrow).spawnIntervalMs >= GetResponsiveSettings(wide).spawnIntervalMs
    ensures GetResponsiveSettings(narrow).initialBurst == GetResponsiveSettings(wide).initialBurst == BurstSize
  {
  }
}
