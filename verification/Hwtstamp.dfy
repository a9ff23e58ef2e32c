/** The netdevice-wide hardware timestamp configuration and the operations that
    capture, change and restore it (include/ace_hwtstamp.h).

    Each ioctl may fail; the caller passes which ones succeed.  A query followed by a
    set is one step, so nothing else changes the device between the two. */
module Hwtstamp {

  const HWTSTAMP_FILTER_ALL := 1

  datatype Config = Config(flags: int, txType: int, rxFilter: int)

  /** The configuration asked for on top of a captured one: every received packet is
      stamped and the transmit mode is kept. */
  function Requested(saved: Config): Config {
    saved.(flags := 0, rxFilter := HWTSTAMP_FILTER_ALL)
  }

  /** What is asked for, and when that is no change at all. */
  lemma RequestedMeaning(saved: Config, r: Config)
    ensures r == Requested(saved) <==> r.flags == 0 && r.rxFilter == HWTSTAMP_FILTER_ALL && r.txType == saved.txType
    ensures Requested(saved) == saved <==> saved.flags == 0 && saved.rxFilter == HWTSTAMP_FILTER_ALL
  {
  }

  /** The guard of a restore: the current configuration is one this program knows. */
  predicate MayRestore(current: Config, saved: Config, effective: Config, allowSaved: bool) {
    current == effective || (allowSaved && current == saved)
  }

  datatype Outcome = Success | Stale | Unsupported | Invalid | IoctlFailed | Skipped

  /** The network device.  The driver may adopt something other than what it is asked
      for, and says so: `adopt` is what a set leaves behind. */
  class Device {
    var config: Config
    const adopt: Config -> Config

    constructor (config: Config, adopt: Config -> Config)
      ensures this.config == config && this.adopt == adopt
    {
      this.config, this.adopt := config, adopt;
    }
  }

  /** struct ace_hwtstamp_state. */
  class TimestampState {
    var saved: Config
    var effective: Config
    var active: bool
    var changed: bool

    /** `changed` is exactly "the two remembered configurations differ". */
    ghost predicate Valid()
      reads this
    {
      changed <==> saved != effective
    }

    constructor ()
      ensures Valid() && !active && saved == effective
    {
      saved, effective := Config(0, 0, 0), Config(0, 0, 0);
      active, changed := false, false;
    }

    method Capture(dev: Device, queryOk: bool) returns (outcome: Outcome)
      modifies this
      ensures Valid()
      ensures dev.config == old(dev.config)
      ensures outcome == if queryOk then Success else IoctlFailed
      ensures active <==> queryOk
      ensures queryOk ==> saved == effective == dev.config
    {
      saved, effective := Config(0, 0, 0), Config(0, 0, 0);
      active, changed := false, false;
      if !queryOk {
        return IoctlFailed;
      }
      saved := dev.config;
      effective := saved;
      active := true;
      return Success;
    }

    method PrepareRxAll() returns (outcome: Outcome)
      requires Valid()
      modifies this`effective, this`changed
      ensures Valid()
      ensures outcome == if active then Success else Invalid
      ensures effective == if active then Requested(saved) else old(effective)
    {
      if !active {
        return Invalid;
      }
      effective := Requested(saved);
      changed := saved != effective;
      return Success;
    }

    /** Sets the prepared configuration, but only over the captured one, and puts the
        captured one back when the driver settles on a different filter.  The set call
        writes what the driver adopted back into the structure it was given. */
    method ApplyPreparedRxAll(dev: Device, queryOk: bool, setOk: bool, rollbackOk: bool) returns (outcome: Outcome)
      requires Valid()
      modifies this`saved, this`effective, this`changed, dev`config
      ensures Valid()
      ensures dev.config != old(dev.config) ==> old(dev.config) == old(saved)
      ensures outcome == Success <==>
                active && old(effective).rxFilter == HWTSTAMP_FILTER_ALL && queryOk && setOk &&
                old(dev.config) == old(saved) && dev.adopt(old(effective)).rxFilter == HWTSTAMP_FILTER_ALL
      ensures outcome == Success ==>
                saved == old(saved) && dev.config == effective == dev.adopt(old(effective)) && effective.rxFilter == HWTSTAMP_FILTER_ALL
      ensures outcome == Unsupported <==>
                active && old(effective).rxFilter == HWTSTAMP_FILTER_ALL && queryOk && setOk && rollbackOk &&
                old(dev.config) == old(saved) && dev.adopt(old(effective)).rxFilter != HWTSTAMP_FILTER_ALL
      ensures outcome == Unsupported ==> dev.config == dev.adopt(old(saved)) && effective == saved == dev.config
      ensures outcome != Unsupported ==> saved == old(saved)
      ensures outcome in {Stale, Invalid} ==> dev.config == old(dev.config) && effective == old(effective)
      ensures outcome == Stale <==>
                active && old(effective).rxFilter == HWTSTAMP_FILTER_ALL && queryOk && old(dev.config) != old(saved)
      ensures outcome != Skipped && (outcome == Invalid <==> !active || old(effective).rxFilter != HWTSTAMP_FILTER_ALL)
      ensures outcome == IoctlFailed ==>
                if queryOk && setOk then old(dev.config) == old(saved) && dev.config == effective == dev.adopt(old(effective)) && effective.rxFilter != HWTSTAMP_FILTER_ALL
                else dev.config == old(dev.config) && effective == old(effective)
    {
      if !active || effective.rxFilter != HWTSTAMP_FILTER_ALL {
        return Invalid;
      }
      if !queryOk {
        return IoctlFailed;
      }
      if dev.config != saved {
        return Stale;
      }
      if !setOk {
        return IoctlFailed;
      }
      dev.config := dev.adopt(effective);
      effective := dev.config;
      changed := saved != effective;
      if effective.rxFilter != HWTSTAMP_FILTER_ALL {
        if !rollbackOk {
          return IoctlFailed;
        }
        dev.config := dev.adopt(saved);
        saved := dev.config;
        changed := false;
        effective := saved;
        return Unsupported;
      }
      return Success;
    }

    /** Puts the captured configuration back unless somebody else changed the device. */
    method RestoreAllowSaved(dev: Device, allowSaved: bool, queryOk: bool, setOk: bool) returns (outcome: Outcome)
      requires Valid()
      modifies this`saved, this`effective, this`changed, this`active, dev`config
      ensures Valid()
      ensures outcome == Skipped <==>
                old(active) && queryOk && !MayRestore(old(dev.config), old(saved), old(effective), allowSaved)
      ensures outcome == Success <==>
                !old(active) || (queryOk && setOk && MayRestore(old(dev.config), old(saved), old(effective), allowSaved))
      ensures dev.config != old(dev.config) ==>
                outcome == Success && MayRestore(old(dev.config), old(saved), old(effective), allowSaved)
      ensures outcome == Success && old(active) ==> dev.config == dev.adopt(old(saved)) && effective == saved == dev.config && !active
      ensures outcome != Success || !old(active) ==>
                active == old(active) && effective == old(effective) && saved == old(saved) && dev.config == old(dev.config)
    {
      if !active {
        return Success;
      }
      if !queryOk {
        return IoctlFailed;
      }
      if !MayRestore(dev.config, saved, effective, allowSaved) {
        return Skipped;
      }
      if !setOk {
        return IoctlFailed;
      }
      dev.config := dev.adopt(saved);
      saved := dev.config;
      effective := saved;
      changed := false;
      active := false;
      return Success;
    }
  }

  /** One full enable/restore cycle against a driver that adopts both configurations
      unchanged leaves the device as it was found. */
  method EnableThenRestore(dev: Device) returns (enabled: Outcome, restored: Outcome)
    requires dev.adopt(dev.config) == dev.config
    requires dev.adopt(Requested(dev.config)) == Requested(dev.config)
    modifies dev`config
    ensures enabled == Success && restored == Success
    ensures dev.config == old(dev.config)
  {
    var state := new TimestampState();
    var captured := state.Capture(dev, true);
    var prepared := state.PrepareRxAll();
    enabled := state.ApplyPreparedRxAll(dev, true, true, true);
    restored := state.RestoreAllowSaved(dev, false, true, true);
  }
}
