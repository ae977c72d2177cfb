/** The session manager as an object. */
module SessionManagers {
  import opened Sessions

  class SessionManager {
    var sessions: map<string, History>
    var lastActivity: map<string, nat>
    var maxHistory: int
    var maxIdleSeconds: int

    constructor (maxHistory: int, maxIdleSeconds: int)
      ensures sessions == map[] && lastActivity == map[]
      ensures this.maxHistory == maxHistory && this.maxIdleSeconds == maxIdleSeconds
    {
      sessions, lastActivity := map[], map[];
      this.maxHistory, this.maxIdleSeconds := maxHistory, maxIdleSeconds;
    }

    /** A session that is not stored has an empty history. */
    function GetHistory(id: string): History
      reads this
    {
      if id in sessions then sessions[id] else []
    }

    method TrimHistory(history: History) returns (trimmed: History)
      ensures trimmed == Trim(history, maxHistory)
    {
      if maxHistory <= 0 || |history| <= maxHistory {
        return history;
      }
      var excess := |history| - maxHistory;
      var systemCount := 0;
      while systemCount < |history| && history[systemCount].role.System?
        invariant systemCount <= SystemCount(history)
      {
        systemCount := systemCount + 1;
      }
      var keepFrom := Max(systemCount, excess);
      while keepFrom < |history| && !history[keepFrom].role.User?
        invariant KeepFrom(history, maxHistory) <= keepFrom <= |history|
        invariant FirstUser(history, keepFrom) == FirstUser(history, KeepFrom(history, maxHistory))
      {
        keepFrom := keepFrom + 1;
      }
      if keepFrom >= |history| {
        return history;
      }
      trimmed := history[..systemCount] + history[keepFrom..];
    }

    method AppendMessage(id: string, m: Message, now: nat)
      modifies this
      ensures sessions == old(sessions)[id := Append(old(GetHistory(id)), m, old(maxHistory))]
      ensures lastActivity == old(lastActivity)[id := now]
      ensures maxHistory == old(maxHistory) && maxIdleSeconds == old(maxIdleSeconds)
    {
      var history := GetHistory(id) + [m];
      if OverLimit(|history|, maxHistory) {
        history := TrimHistory(history);
      }
      sessions := sessions[id := history];
      lastActivity := lastActivity[id := now];
    }

    /** Forgets exactly the sessions that have been idle for more whole seconds than allowed. */
    method CleanupExpired(now: nat)
      requires forall id | id in lastActivity :: lastActivity[id] <= now
      modifies this
      ensures var expired :=
                set id | id in old(lastActivity) && (now - old(lastActivity)[id]) / 1000 > old(maxIdleSeconds);
              sessions == old(sessions) - expired && lastActivity == old(lastActivity) - expired
      ensures maxHistory == old(maxHistory) && maxIdleSeconds == old(maxIdleSeconds)
    {
      var toRemove: set<string> := {};
      var left := lastActivity.Keys;
      while left != {}
        invariant left <= lastActivity.Keys
        invariant toRemove ==
                  set id | id in lastActivity.Keys - left && (now - lastActivity[id]) / 1000 > maxIdleSeconds
        decreases left
      {
        var id :| id in left;
        if (now - lastActivity[id]) / 1000 > maxIdleSeconds {
          toRemove := toRemove + {id};
        }
        left := left - {id};
      }
      sessions := sessions - toRemove;
      lastActivity := lastActivity - toRemove;
    }
  }
}
