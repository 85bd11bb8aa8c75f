/** The module-level state of dist/common.js: whether the device is ready,
    the message carrying the images, and whether procrastination mode is
    active, each with its setter and getter. */
module Common {
  import opened Values

  class ModeFlags {
    var deviceReady: bool
    /** The JSON text handed to the injected page, or null. */
    var message: Option<string>
    var procrastinationModeActive: bool

    /** The values the module starts with. */
    constructor ()
      ensures !deviceReady && message == None && !procrastinationModeActive
    {
      deviceReady := false;
      message := None;
      procrastinationModeActive := false;
    }

    /** The condition `waitForDeviceAndMessage` waits for: the device flag is
        set and the message is neither null nor empty. */
    predicate ReadyToLaunch()
      reads this
      ensures ReadyToLaunch() ==> deviceReady && message.Some? && |message.value| > 0
    {
      deviceReady && Truthy(message)
    }

    method SetDeviceReady(value: bool)
      modifies this
      ensures deviceReady == value
      ensures message == old(message) && procrastinationModeActive == old(procrastinationModeActive)
    {
      deviceReady := value;
    }

    method GetDeviceReady() returns (value: bool)
      ensures value == deviceReady
    {
      value := deviceReady;
    }

    method SetMessage(value: Option<string>)
      modifies this
      ensures message == value
      ensures deviceReady == old(deviceReady) && procrastinationModeActive == old(procrastinationModeActive)
    {
      message := value;
    }

    method GetMessage() returns (value: Option<string>)
      ensures value == message
    {
      value := message;
    }

    method ActivateProcrastinationMode()
      modifies this
      ensures procrastinationModeActive
      ensures deviceReady == old(deviceReady) && message == old(message)
    {
      procrastinationModeActive := true;
    }

    method DeactivateProcrastinationMode()
      modifies this
      ensures !procrastinationModeActive
      ensures deviceReady == old(deviceReady) && message == old(message)
    {
      procrastinationModeActive := false;
    }

    method IsProcrastinationModeActive() returns (active: bool)
      ensures active == procrastinationModeActive
    {
      active := procrastinationModeActive;
    }
  }

  /** One call sequence, as the start-up code and the browser listeners
      interleave them: the device flag is set, the mode is activated twice,
      the message is set, the mode is deactivated twice. Each getter then
      returns the value its own setter stored, and a repeated activation or
      deactivation reads the same as a single one. */
  method SetterScenario(flags: ModeFlags, ready: bool, msg: Option<string>)
    returns (activeAfterActivations: bool, readyRead: bool, msgRead: Option<string>, active: bool)
    modifies flags
    ensures activeAfterActivations
    ensures readyRead == ready && msgRead == msg && !active
  {
    flags.SetDeviceReady(ready);
    flags.ActivateProcrastinationMode();
    flags.ActivateProcrastinationMode();
    activeAfterActivations := flags.IsProcrastinationModeActive();
    flags.SetMessage(msg);
    flags.DeactivateProcrastinationMode();
    flags.DeactivateProcrastinationMode();
    readyRead := flags.GetDeviceReady();
    msgRead := flags.GetMessage();
    active := flags.IsProcrastinationModeActive();
  }
}
