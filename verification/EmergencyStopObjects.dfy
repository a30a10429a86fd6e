/** The emergency-stop objects as the executor thread runs them when nothing
    interrupts it: each method is proved equal to the atomic steps of the
    interleaved model run back to back (src/EmergencyStop.cpp,
    src/HostedExecutorRuntime.cpp `tick`). */
module EmergencyStopObjects {

  import opened EmergencyStop
  import opened EmergencyStopSafety

  class EmergencyStopControlBlock {
    var requestedSources: set<Source>
    var resetGeneration: nat
    var statusSequence: nat
    var acknowledgedResetGeneration: nat
    var activeSources: set<Source>
    var latchedSources: set<Source>
    var resetResult: ResetResult

    function Value(): Shared
      reads this
    {
      Shared(requestedSources, resetGeneration, statusSequence, acknowledgedResetGeneration,
             activeSources, latchedSources, resetResult)
    }

    constructor ()
      ensures Value() == Initial(0).shared
    {
      requestedSources, resetGeneration, statusSequence := {}, 0, 0;
      acknowledgedResetGeneration, activeSources, latchedSources, resetResult := 0, {}, {}, NoReset;
    }
  }

  class EmergencyStopInterface {
    const control: EmergencyStopControlBlock

    constructor (block: EmergencyStopControlBlock)
      ensures control == block
    {
      control := block;
    }

    method RequestSource(source: Source)
      modifies control
      ensures control.Value() == Next(Initial(0).(shared := old(control.Value())), Request(source)).shared
    {
      control.requestedSources := control.requestedSources + {source};
    }

    method ReleaseSource(source: Source)
      modifies control
      ensures control.Value() == Next(Initial(0).(shared := old(control.Value())), Release(source)).shared
    {
      control.requestedSources := control.requestedSources - {source};
    }

    method RequestReset() returns (generation: nat)
      modifies control
      ensures control.Value() == Next(Initial(0).(shared := old(control.Value())), Step.RequestReset).shared
      ensures generation == control.resetGeneration > old(control.resetGeneration)
    {
      control.resetGeneration := control.resetGeneration + 1;
      generation := control.resetGeneration;
    }

    method Publish(status: Status)
      modifies control
      ensures control.Value() == Store(old(control.Value()), status)
      ensures Published(control.Value()) == status
    {
      control.statusSequence := control.statusSequence + 1;
      control.acknowledgedResetGeneration := status.acknowledged;
      control.activeSources := status.active;
      control.latchedSources := status.latched;
      control.resetResult := status.result;
      control.statusSequence := control.statusSequence + 1;
    }
  }

  class EmergencyStopState {
    const channel: EmergencyStopInterface
    var status: Status
    var observedResetGeneration: nat

    constructor (interface: EmergencyStopInterface)
      ensures channel == interface && status == INITIAL_STATUS && observedResetGeneration == 0
    {
      channel, status, observedResetGeneration := interface, INITIAL_STATUS, 0;
    }

    predicate Latched()
      reads this
    {
      status.latched != {}
    }

    method Update(local: set<Source>) returns (latched: bool)
      modifies this, channel.control
      ensures var was := old(channel.control.Value());
              && status == Answer(Raise(old(status), was.requested, local), old(observedResetGeneration), was.generation)
              && observedResetGeneration == was.generation
              && channel.control.Value() == Store(was, status)
      ensures latched == Latched()
    {
      ghost var raised := Raise(status, channel.control.requestedSources, local);
      status := status.(active := channel.control.requestedSources + local);
      status := status.(latched := status.latched + status.active);
      assert status == raised;
      var generation := channel.control.resetGeneration;
      if generation != observedResetGeneration {
        observedResetGeneration := generation;
        status := status.(acknowledged := generation);
        if status.active != {} {
          status := status.(result := BlockedByActiveSource);
        } else if status.latched == {} {
          status := status.(result := NotLatched);
        } else {
          status := status.(latched := {}, result := Cleared);
        }
      }
      channel.Publish(status);
      latched := Latched();
    }
  }

  /** The part of HostedExecutorRuntime that obeys the emergency stop; the core
      is represented by the calls made on it. */
  class HostedExecutorRuntime {
    const emergencyStop: EmergencyStopState
    var coreCalls: seq<CoreCall>
    ghost var history: seq<Status>

    ghost function Snapshot(): System
      reads this, emergencyStop, emergencyStop.channel.control
    {
      System(emergencyStop.channel.control.Value(),
             Executor(Idle, emergencyStop.status, emergencyStop.observedResetGeneration),
             [], history, coreCalls)
    }

    constructor (state: EmergencyStopState)
      ensures emergencyStop == state && coreCalls == [] && history == [INITIAL_STATUS]
    {
      emergencyStop, coreCalls, history := state, [], [INITIAL_STATUS];
    }

    /** One tick is the ten atomic steps of the model, and keeps it safe. */
    method ServoPeriod(local: set<Source>, fault: bool)
      modifies this, emergencyStop, emergencyStop.channel.control
      ensures Snapshot() == Run(old(Snapshot()), Ticks(10, local, fault))
      ensures old(Safe(Snapshot())) ==> Safe(Snapshot())
    {
      ghost var before := Snapshot();
      UninterruptedTick(before, local, fault);
      var was := emergencyStop.Latched();
      var stopped := emergencyStop.Update(local);
      history := history + [emergencyStop.status];
      if stopped {
        if !was {
          coreCalls := coreCalls + [LatchCore];
        }
      } else if was {
        coreCalls := coreCalls + [ResetCore];
      } else if fault {
        coreCalls := coreCalls + [ReportFault];
      } else {
        coreCalls := coreCalls + [ServoTick];
      }
      assert Snapshot().log == WholeTick(before, local, fault).log;
      assert Snapshot() == WholeTick(before, local, fault);
      if Safe(before) {
        RunKeepsSafe(before, Ticks(10, local, fault));
      }
    }
  }
}
