/** The handler of session saves on the shared tables: aap_gateway_api/signals/session.py. */
module SessionSignals {
  import opened Sessions
  import opened Wrappers

  class SessionTables {
    var state: State
    var limit: Option<int>

    constructor (state: State, limit: Option<int>)
      ensures this.state == state && this.limit == limit
    {
      this.state, this.limit := state, limit;
    }

    /** `get_active_memberships_over_limit`: `active` is what the ordered query returns. */
    method GetActiveMembershipsOverLimit(u: int, now: real, active: seq<nat>) returns (over: seq<nat>)
      requires limit.Some? ==> limit.value >= -1
      requires IsNewestFirst(state.memberships, Active(state, u, now), active)
      ensures over == OverLimit(state, u, now, limit)
    {
      NewestFirstIs(state.memberships, Active(state, u, now));
      NewestFirstIsUnique(state.memberships, Active(state, u, now), active,
          NewestFirst(state.memberships, Active(state, u, now)));
      if limit.None? || limit.value == -1 {
        return [];
      }
      var allowed := limit.value + 1;
      return if |active| <= allowed then [] else active[allowed..];
    }

    /** `post_save` of a session row, with `track_user_session`.  If a membership starts, `active` is what the
        query for the user's active memberships returns. */
    method SaveSession(key: SessionKey, session: Session, created: real, checked: real, active: seq<nat>)
      requires Valid(state) && state.now <= created <= checked && (limit.Some? ==> limit.value >= -1)
      requires IsLogin(state, key, session) ==>
                 var joined := Join(Saved(state, key, session, checked), session.user.value, key, created);
                 IsNewestFirst(joined.memberships, Active(joined, session.user.value, checked), active)
      modifies this`state
      ensures state == Apply(old(state), Save(key, session, created, checked), limit)
    {
      ghost var before := state;
      state := state.(sessions := state.sessions[key := session], now := checked);
      if session.user.None? {
        return;
      }
      var u := session.user.value;
      if u !in state.users {
        return;
      }
      // get_or_create: the row is there already, or the session has a row for another user and the unique
      // constraint refuses a second one
      if Tracked(state, key) {
        assert Tracked(before, key);
        return;
      }
      assert !Tracked(before, key);
      state := state.(memberships := state.memberships[state.nextPk := Membership(u, key, created)],
          nextPk := state.nextPk + 1);
      var over := GetActiveMembershipsOverLimit(u, checked, active);
      DeleteSessions(over);
    }

    method DeleteSessions(over: seq<nat>)
      modifies this`state
      ensures state == Evict(old(state), over)
    {
      var keys := SessionKeys(over);
      ghost var before := state;
      for i := 0 to |over|
        invariant state == Evict(before, over[..i])
      {
        assert over[..i + 1][..i] == over[..i];
        if keys[i].Some? {
          state := DropSession(state, keys[i].value);
        }
      }
      assert over[..|over|] == over;
    }

    /** The session keys of the rows, read before any is deleted. */
    method SessionKeys(over: seq<nat>) returns (keys: seq<Option<SessionKey>>)
      ensures |keys| == |over|
      ensures forall i :: 0 <= i < |over| ==>
                keys[i] == if over[i] in state.memberships then Some(state.memberships[over[i]].session) else None
    {
      keys := [];
      for i := 0 to |over|
        invariant |keys| == i
        invariant forall k :: 0 <= k < i ==>
                    keys[k] == if over[k] in state.memberships then Some(state.memberships[over[k]].session) else None
      {
        keys := keys + [if over[i] in state.memberships then Some(state.memberships[over[i]].session) else None];
      }
    }
  }
}
