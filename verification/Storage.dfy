/**
  The agent's state file (agent/src/storage.rs, `AgentState` and `Store`).

  Renaming is atomic and durable; text that was written whole parses back to the state it came
  from. A file in the middle of being written is `Corrupt`.
 */
module Storage {
  import opened Basics
  import opened Session

  /** The server's address plays no part here. */
  datatype Credentials = Credentials(machineId: MachineId, machineSecret: Secret)

  datatype AgentState = AgentState(
    credentials: Option<Credentials>,
    decommissioned: bool,
    session: Option<SessionSnapshot>,
    lastAppliedAt: Millis,
    trustedHighWaterMark: Millis)

  /** `AgentState::default()`: an unenrolled machine whose clocks start at its own time. */
  function DefaultState(now: Millis): AgentState {
    AgentState(None, false, None, now, now)
  }

  datatype File = Missing | Corrupt | Whole(state: AgentState)

  datatype IoError = InvalidData

  /** A missing file is a new machine; an unreadable one is refused, never defaulted. */
  function Loaded(file: File, now: Millis): Result<AgentState, IoError> {
    match file
    case Missing => Ok(DefaultState(now))
    case Corrupt => Err(InvalidData)
    case Whole(state) => Ok(state)
  }

  /** Enrolment alone recovers from an unreadable file. */
  function LoadedForEnroll(file: File, now: Millis): AgentState {
    match Loaded(file, now)
    case Ok(state) => state
    case Err(_) => DefaultState(now)
  }

  /** `state.json`, `state.json.tmp` and `state.json.corrupt`. */
  datatype Directory = Directory(main: File, temp: File, aside: File)

  /** What a crash can find on disk while `state` is being saved, in order. */
  function SaveStages(d: Directory, state: AgentState): seq<Directory> {
    [d,
     d.(temp := Corrupt),
     d.(temp := Whole(state)),
     d.(main := Whole(state), temp := Missing)]
  }

  /**
    A crash at any point of a save leaves the complete old state or the complete new one, and
    which of the two changes exactly once, at the rename.
   */
  lemma CrashDuringSave(d: Directory, state: AgentState, stage: nat, now: Millis)
    requires stage < |SaveStages(d, state)|
    ensures Loaded(SaveStages(d, state)[stage].main, now) ==
            if stage < 3 then Loaded(d.main, now) else Ok(state)
    ensures SaveStages(d, state)[stage].aside == d.aside
  {
  }

  /** The state that a file holds, if it can be read. */
  function StateIn(file: File): Option<AgentState> {
    if file.Whole? then Some(file.state) else None
  }

  class Store {
    var main: File
    var temp: File
    var aside: File

    ghost function View(): Directory
      reads this
    {
      Directory(main, temp, aside)
    }

    constructor (directory: Directory)
      ensures View() == directory
    {
      main := directory.main;
      temp := directory.temp;
      aside := directory.aside;
    }

    method Load(now: Millis) returns (r: Result<AgentState, IoError>)
      ensures r == Loaded(main, now)
      ensures main.Missing? ==> r == Ok(AgentState(None, false, None, now, now))
      ensures main.Corrupt? ==> r == Err(InvalidData)
      ensures main.Whole? ==> r == Ok(main.state)
    {
      match main {
        case Missing => r := Ok(DefaultState(now));
        case Corrupt => r := Err(InvalidData);
        case Whole(state) => r := Ok(state);
      }
    }

    /** Moves an unreadable file aside; `preserved` says whether that rename worked. */
    method LoadForEnroll(now: Millis, preserved: bool) returns (state: AgentState)
      modifies this
      ensures state == LoadedForEnroll(old(main), now)
      ensures state == if old(main).Whole? then old(main).state else AgentState(None, false, None, now, now)
      ensures old(main).Corrupt? && preserved ==> View() == Directory(Missing, old(temp), Corrupt)
      ensures !(old(main).Corrupt? && preserved) ==> View() == old(View())
    {
      var r := Load(now);
      match r {
        case Ok(loaded) =>
          state := loaded;
        case Err(_) =>
          if preserved {
            aside := main;
            main := Missing;
          }
          state := DefaultState(now);
      }
    }

    /** Walks through every stage of a save, in order, and ends at the last. */
    method Save(state: AgentState)
      modifies this
      ensures View() == SaveStages(old(View()), state)[3]
      ensures main == Whole(state) && temp.Missing? && aside == old(aside)
    {
      ghost var stages := SaveStages(View(), state);
      temp := Corrupt;
      assert View() == stages[1];
      temp := Whole(state);
      assert View() == stages[2];
      main, temp := temp, Missing;
    }
  }
}
