/** What holds on every run of the daemon from its start, gathered from the run theorems. */
module Safety {
  import opened Options
  import opened RegistryModel
  import opened PsiModel
  import opened DaemonModel
  import PollingRuns
  import DescriptorRuns
  import VictimRuns
  import ThrashRuns
  import UpgradeRuns

  /**
   In every state of every run from the start, over any interleaving of pressure events, polling,
   notices, timeouts, client commands, dropped connections and watchdog steps: the registry is
   well formed, a wait for a death means polling is paused and can be resumed, the watchdog aims
   at nobody below adj 0, and the counted events are spaced. If no allocation fails, the open
   pidfds are exactly the owned ones; if counters run forward and measurements fit an int, boost,
   limit and maximum thrashing are within their bounds.
   */
  lemma DaemonSafety(ss: seq<Sys>, evs: seq<Event>, k: nat, pidfdSupported: bool, cfg: Settings,
                     twice: seq<nat>, ups: seq<UpgradeRuns.Trace>, ths: seq<ThrashRuns.Trace>)
    requires IsRun(ss, evs, cfg) && ss[0] == Started(pidfdSupported, cfg) && k <= |evs|
    requires DescriptorRuns.CountsTwice(ss, evs, twice, cfg)
    requires UpgradeRuns.Traces(ss, evs, ups, cfg) && ups[0] == UpgradeRuns.Trace(None, 0, 0)
    ensures WellFormed(ss[k].d.reg)
    ensures PollingRuns.PausedWhileWaiting(ss[k].d)
    ensures VictimRuns.AimsHigh(ss[k])
    ensures UpgradeRuns.Spaced(ss[k].d.up, ups[k], ss[k].clock, cfg)
    ensures DescriptorRuns.CleanRun(ss, evs) ==>
              DescriptorRuns.Exact(ss[k].d.reg) && ss[k].d.reg.strayCloses == DescriptorRuns.Total(twice[..k])
    ensures ThrashRuns.Measured(ss, evs, ths, cfg) && ths[0] == ThrashRuns.Trace(0, 0) ==>
              ThrashRuns.Sound(ss[k].d, ths[k], cfg)
  {
    hide StepAt, WellFormed, DescriptorRuns.CleanRun, DescriptorRuns.CountsTwice, UpgradeRuns.Traces, ThrashRuns.MeasuredAt;
    hide UpgradeRuns.Spaced, ThrashRuns.Sound, DescriptorRuns.Exact;
    StartedExact(pidfdSupported, cfg);
    RunWellFormed(ss, evs, k, cfg);
    PollingRuns.RunPauses(ss, evs, k, cfg);
    VictimRuns.RunAimsHigh(ss, evs, k, cfg);
    UpgradeRuns.BootSpaced(pidfdSupported, cfg);
    UpgradeRuns.RunSpaced(ss, evs, ups, k, cfg);
    if DescriptorRuns.CleanRun(ss, evs) {
      DescriptorRuns.RunExact(ss, evs, twice, k, cfg);
    }
    if ThrashRuns.Measured(ss, evs, ths, cfg) && ths[0] == ThrashRuns.Trace(0, 0) {
      ThrashRuns.BootSound(pidfdSupported, cfg);
      ThrashRuns.RunSound(ss, evs, ths, k, cfg);
    }
  }

  lemma StartedExact(pidfdSupported: bool, cfg: Settings)
    ensures DescriptorRuns.Exact(Started(pidfdSupported, cfg).d.reg)
  {
  }
}
