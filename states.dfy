/**
 * The explicit conversation-state machine: an enumeration of states, a fixed
 * table of allowed transitions, and a per-user store of current state and
 * state payload. Payload values are opaque (type parameter `V`).
 */
module States {
  import opened Wrappers
  import Sets

  datatype BotState =
    | Idle
    | WaitingForBroadcast
    | WaitingForUserTarget
    | SendingToUser
    | ReplyingToUser
    | WaitingForConfirmation
    | BlockingUser
    | UnblockingUser

  /** The allowed-transition table, row by row. */
  function AllowedTargets(from: BotState): seq<BotState> {
    match from
    case Idle => [WaitingForBroadcast, WaitingForUserTarget, ReplyingToUser, BlockingUser, UnblockingUser]
    case WaitingForBroadcast => [Idle, WaitingForConfirmation]
    case WaitingForUserTarget => [Idle, SendingToUser]
    case SendingToUser => [Idle, WaitingForConfirmation]
    case ReplyingToUser => [Idle, WaitingForConfirmation]
    case WaitingForConfirmation => [Idle]
    case BlockingUser => [Idle]
    case UnblockingUser => [Idle]
  }

  predicate CanTransition(from: BotState, to: BotState) {
    to in AllowedTargets(from)
  }

  /** A sequence of states each of which the table allows after the previous one. */
  ghost predicate IsRun(run: seq<BotState>) {
    |run| > 0 && forall k :: 0 <= k < |run| - 1 ==> CanTransition(run[k], run[k + 1])
  }

  /** No state may transition to itself. */
  lemma NoSelfLoops(s: BotState)
    ensures !CanTransition(s, s)
  {
  }

  /** Every state other than `Idle` has a way back to `Idle` in one step. */
  lemma EveryStateCanReturnToIdle(s: BotState)
    ensures s != Idle ==> CanTransition(s, Idle)
  {
  }

  /** Each of the four rows with two entries holds exactly `Idle` and its one forward move. */
  lemma TwoEntryRowsExact(t: BotState)
    ensures CanTransition(WaitingForBroadcast, t) <==> t == Idle || t == WaitingForConfirmation
    ensures CanTransition(WaitingForUserTarget, t) <==> t == Idle || t == SendingToUser
    ensures CanTransition(SendingToUser, t) <==> t == Idle || t == WaitingForConfirmation
    ensures CanTransition(ReplyingToUser, t) <==> t == Idle || t == WaitingForConfirmation
  {
  }

  /** From `Idle` every state is allowed except `Idle`, `SendingToUser` and `WaitingForConfirmation`. */
  lemma IdleRowExact(t: BotState)
    ensures CanTransition(Idle, t) <==> t != Idle && t != SendingToUser && t != WaitingForConfirmation
  {
  }

  /** The confirmation, blocking and unblocking states lead to `Idle` and nowhere else. */
  lemma TerminalStatesOnlyGoToIdle(s: BotState, t: BotState)
    requires s == WaitingForConfirmation || s == BlockingUser || s == UnblockingUser
    ensures CanTransition(s, t) <==> t == Idle
  {
  }

  /** A confirmation can only be requested from a state that is composing a message. */
  lemma ConfirmationOnlyAfterComposing(s: BotState)
    ensures CanTransition(s, WaitingForConfirmation) <==>
              s == WaitingForBroadcast || s == SendingToUser || s == ReplyingToUser
  {
  }

  /** Every state lies on some run that starts in `Idle`. */
  lemma EveryStateReachableFromIdle(s: BotState)
    ensures exists run :: IsRun(run) && run[0] == Idle && run[|run| - 1] == s
  {
    var run :=
      match s
      case Idle => [Idle]
      case SendingToUser => [Idle, WaitingForUserTarget, SendingToUser]
      case WaitingForConfirmation => [Idle, ReplyingToUser, WaitingForConfirmation]
      case _ => [Idle, s];
    assert IsRun(run);
  }

  /** Every run can be completed back to `Idle` by one more step. */
  lemma EveryRunCanEndInIdle(run: seq<BotState>)
    requires IsRun(run)
    ensures exists tail :: |tail| <= 1 && IsRun(run + tail) && (run + tail)[|run + tail| - 1] == Idle
  {
    var last := run[|run| - 1];
    if last == Idle {
      assert run + [] == run;
      assert IsRun(run + []);
    } else {
      var longer := run + [Idle];
      forall k | 0 <= k < |longer| - 1
        ensures CanTransition(longer[k], longer[k + 1])
      {
        if k < |run| - 1 {
          assert longer[k] == run[k] && longer[k + 1] == run[k + 1];
        }
      }
    }
  }

  /** What `get_state_data` returns: the whole payload (no key, or an empty key) or one entry. */
  datatype Lookup<V> = Whole(payload: map<string, V>) | Entry(value: Option<V>)

  function PayloadOf<V>(data: map<int, map<string, V>>, userId: int): map<string, V> {
    if userId in data then data[userId] else map[]
  }

  class StateManager<V> {
    var states: map<int, BotState>
    var stateData: map<int, map<string, V>>

    constructor ()
      ensures states == map[] && stateData == map[]
    {
      states := map[];
      stateData := map[];
    }

    /** A user never given a state is `Idle`. */
    function GetState(userId: int): (s: BotState)
      reads this
      ensures userId !in states ==> s == Idle
      ensures userId in states ==> s == states[userId]
    {
      if userId in states then states[userId] else Idle
    }

    /** Sets the state; a non-empty `data` is merged into the payload, an empty one leaves it alone. */
    method SetState(userId: int, state: BotState, data: map<string, V>)
      modifies this
      ensures states == old(states)[userId := state]
      ensures data == map[] ==> stateData == old(stateData)
      ensures data != map[] ==> stateData == old(stateData)[userId := PayloadOf(old(stateData), userId) + data]
      ensures GetState(userId) == state
    {
      states := states[userId := state];
      if data != map[] {
        stateData := stateData[userId := PayloadOf(stateData, userId) + data];
      }
    }

    method ClearState(userId: int)
      modifies this
      ensures states == old(states) - {userId}
      ensures stateData == old(stateData) - {userId}
      ensures GetState(userId) == Idle && GetStateData(userId, "") == Whole(map[])
    {
      states := states - {userId};
      stateData := stateData - {userId};
    }

    function GetStateData(userId: int, key: string): (r: Lookup<V>)
      reads this
      ensures key == "" ==> r == Whole(PayloadOf(stateData, userId))
      ensures key != "" && key in PayloadOf(stateData, userId) ==> r == Entry(Some(stateData[userId][key]))
      ensures key != "" && key !in PayloadOf(stateData, userId) ==> r == Entry(None)
    {
      var payload := PayloadOf(stateData, userId);
      if key != "" then Entry(if key in payload then Some(payload[key]) else None) else Whole(payload)
    }

    method SetStateData(userId: int, key: string, value: V)
      modifies this
      ensures states == old(states)
      ensures stateData == old(stateData)[userId := PayloadOf(old(stateData), userId)[key := value]]
    {
      stateData := stateData[userId := PayloadOf(stateData, userId)[key := value]];
    }

    method RemoveStateData(userId: int, key: string)
      modifies this
      ensures states == old(states)
      ensures userId in old(stateData) && key in old(stateData)[userId] ==>
                stateData == old(stateData)[userId := old(stateData)[userId] - {key}]
      ensures !(userId in old(stateData) && key in old(stateData)[userId]) ==> stateData == old(stateData)
    {
      if userId in stateData && key in stateData[userId] {
        stateData := stateData[userId := stateData[userId] - {key}];
      }
    }

    /** A user never given a state is exactly in `Idle`; any other state is a stored one. */
    predicate IsInState(userId: int, state: BotState)
      reads this
      ensures userId !in states ==> (IsInState(userId, state) <==> state == Idle)
      ensures IsInState(userId, state) && state != Idle ==> userId in states && states[userId] == state
    {
      GetState(userId) == state
    }

    /** Whether the table allows moving the user from their current state to `target`. */
    predicate CanTransitionTo(userId: int, target: BotState)
      reads this
      ensures userId !in states ==>
                (CanTransitionTo(userId, target) <==>
                 target in {WaitingForBroadcast, WaitingForUserTarget, ReplyingToUser, BlockingUser, UnblockingUser})
      ensures CanTransitionTo(userId, target) ==> target != GetState(userId)
    {
      CanTransition(GetState(userId), target)
    }

    /** Applies an allowed transition; a disallowed one changes nothing and returns false. */
    method TransitionTo(userId: int, target: BotState, data: map<string, V>) returns (ok: bool)
      modifies this
      ensures ok == CanTransition(old(GetState(userId)), target)
      ensures ok ==> states == old(states)[userId := target]
      ensures ok && data != map[] ==> stateData == old(stateData)[userId := PayloadOf(old(stateData), userId) + data]
      ensures ok && data == map[] ==> stateData == old(stateData)
      ensures !ok ==> states == old(states) && stateData == old(stateData)
    {
      if CanTransitionTo(userId, target) {
        SetState(userId, target, data);
        ok := true;
      } else {
        ok := false;
      }
    }

    /** Stores `Idle` explicitly (the user stays a key of `states`) and drops the payload. */
    method ResetToIdle(userId: int)
      modifies this
      ensures states == old(states)[userId := Idle]
      ensures stateData == old(stateData) - {userId}
    {
      SetState(userId, Idle, map[]);
      stateData := stateData - {userId};
    }

    /** The users with a stored state equal to `state`; users never set are not listed, even for `Idle`. */
    function GetAllUsersInState(state: BotState): (users: set<int>)
      reads this
      ensures users <= states.Keys
      ensures forall u :: u in users ==> GetState(u) == state
      ensures forall u :: u in states && GetState(u) == state ==> u in users
    {
      set u | u in states && states[u] == state
    }

    /**
     * Clears every user with a stored state who is not in `active`. Payload entries
     * of users without a stored state are not touched.
     */
    method CleanupInactiveStates(active: set<int>)
      modifies this
      ensures states == old(states) - (old(states).Keys - active)
      ensures stateData == old(stateData) - (old(states).Keys - active)
      ensures states.Keys <= active
      ensures forall u :: u in active && u in old(states) ==> u in states && states[u] == old(states)[u]
    {
      var inactive := states.Keys - active;
      ghost var all := inactive;
      while inactive != {}
        invariant inactive <= all
        invariant all == old(states).Keys - active
        invariant states == old(states) - (all - inactive)
        invariant stateData == old(stateData) - (all - inactive)
        decreases inactive
      {
        Sets.NonEmptyHasMember(inactive);
        var u :| u in inactive;
        ClearState(u);
        inactive := inactive - {u};
      }
    }
  }
}
