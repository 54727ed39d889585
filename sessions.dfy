/** The board's view of the agent gateway's sessions: how each one is labelled, which are hidden
    because the user deleted them, the order they are listed in, and which ones the emergency stop
    targets. The gateway calls themselves are not modelled; what they report is a parameter. */
module Sessions {
  import opened Wrappers
  import opened Text
  import opened Sequences

  /** A session as `sessions_list` reports it, after the `.get` defaults: a missing key or label is
      "", a missing update time 0; `displayName` is None when the field is absent. */
  datatype GatewaySession = GatewaySession(key: string, gatewayLabel: string, displayName: Option<string>,
                                           channel: string, model: string, updatedAt: int)

  /** A row of the list the board shows. */
  datatype SessionRow = SessionRow(key: string, caption: string, channel: string, model: string, updatedAt: int)

  const MainLabel: string := "\U{1F6E1}\U{FE0F} Jarvis (Main)"
  const Robot: string := "\U{1F916} "

  predicate IsMainKey(key: string)
  {
    key == "main" || key == "agent:main:main"
  }

  /** `key.split(":")[-1][:8] if ":" in key else key[:8]`. */
  function ShortId(key: string): string
  {
    if ':' in key then var parts := Split(key, ':'); Take(parts[|parts| - 1], 8) else Take(key, 8)
  }

  /** `parts[1] if len(parts) > 1 else key` for `parts = key.split(":")`. */
  function AgentPart(key: string): string
  {
    var parts := Split(key, ':');
    if |parts| > 1 then parts[1] else key
  }

  /** The label chain of the session list: the main session, the gateway's own label, a subagent's
      short id, an `agent:` key's agent name, or else the display name (the key when absent). */
  function SessionLabel(key: string, gatewayLabel: string, displayName: Option<string>): string
  {
    if IsMainKey(key) then MainLabel
    else if gatewayLabel != "" then Robot + gatewayLabel
    else if Contains(key, "subagent") then Robot + "Session " + ShortId(key)
    else if StartsWith(key, "agent:") then Robot + Title(AgentPart(key))
    else if displayName.Some? then displayName.value
    else key
  }

  function Format(s: GatewaySession): SessionRow
  {
    SessionRow(s.key, SessionLabel(s.key, s.gatewayLabel, s.displayName), s.channel, s.model, s.updatedAt)
  }

  /** The main session is always labelled as such, whatever label the gateway gives it; any other
      session with a label is shown under that label. */
  lemma MainAndLabelledSessions(key: string, gatewayLabel: string, displayName: Option<string>)
    ensures IsMainKey(key) ==> SessionLabel(key, gatewayLabel, displayName) == MainLabel
    ensures !IsMainKey(key) && gatewayLabel != "" ==> SessionLabel(key, gatewayLabel, displayName) == Robot + gatewayLabel
  {
  }

  /** An unlabelled subagent is shown by a short id of at most eight characters: a prefix of the last
      colon-separated part of its key, or of the key itself when it has no colon. */
  lemma SubagentShortId(key: string, displayName: Option<string>)
    requires !IsMainKey(key) && Contains(key, "subagent")
    ensures exists id :: SessionLabel(key, "", displayName) == Robot + "Session " + id
                         && |id| <= 8 && ':' !in id && (':' !in key ==> id == key[..|id|])
  {
    var id := ShortId(key);
    assert SessionLabel(key, "", displayName) == Robot + "Session " + id;
    if ':' in key {
      var parts := Split(key, ':');
      assert ':' !in parts[|parts| - 1];
      assert id == parts[|parts| - 1][..|id|];
      forall i | 0 <= i < |id| ensures id[i] != ':' {
        assert id[i] == parts[|parts| - 1][i];
      }
    }
  }

  /** An unlabelled `agent:<name>:...` session is shown as the agent name in title case. */
  lemma AgentKeyLabel(name: string, rest: string, displayName: Option<string>)
    requires ':' !in name && (rest == [] || rest[0] == ':')
    requires !IsMainKey("agent:" + name + rest) && !Contains("agent:" + name + rest, "subagent")
    ensures SessionLabel("agent:" + name + rest, "", displayName) == Robot + Title(name)
  {
    var key := "agent:" + name + rest;
    assert key == "agent" + [':'] + (name + rest);
    SplitAfterPiece("agent", ':', name + rest);
    SplitFirstPiece(name, ':', rest);
    assert StartsWith(key, "agent:") by {
      assert key[..6] == "agent:";
    }
    assert AgentPart(key) == name;
  }

  // ---------------------------------------------------------------------------------------------
  // GET /api/sessions

  /** Sessions whose key mentions "main" in any case come first. */
  function MainRank(key: string): int
  {
    if Contains(Lower(key), "main") then 0 else 1
  }

  /** The sort key `(0 if "main" in key.lower() else 1, -updatedAt)`: main sessions first, then the
      most recently updated first. */
  predicate MainFirst(x: SessionRow, y: SessionRow)
  {
    MainRank(x.key) < MainRank(y.key) || (MainRank(x.key) == MainRank(y.key) && x.updatedAt >= y.updatedAt)
  }

  /** The sessions listed and the `deleted_sessions` table afterwards. */
  datatype Listing = Listing(rows: seq<SessionRow>, deleted: set<string>)

  function FormatAll(sessions: seq<GatewaySession>): (r: seq<SessionRow>)
    ensures |r| == |sessions|
    ensures forall i :: 0 <= i < |sessions| ==> r[i] == Format(sessions[i])
  {
    seq(|sessions|, i requires 0 <= i < |sessions| => Format(sessions[i]))
  }

  /** `list_sessions` once the gateway answered: format every session, forget deleted keys the
      gateway no longer reports, hide the deleted ones, and sort. */
  function ListSessions(sessions: seq<GatewaySession>, deleted: set<string>): Listing
  {
    var formatted := FormatAll(sessions);
    var reported := set r | r in formatted :: r.key;
    Listing(SortBy(Filter(formatted, (r: SessionRow) => r.key !in deleted), MainFirst), deleted - (deleted - reported))
  }

  lemma MainFirstIsTotalPreorder()
    ensures TotalPreorder(MainFirst)
  {
  }

  /** The listing shows every reported session that was not deleted, as often as it was reported,
      main sessions first and then the most recently updated; the deleted keys kept are exactly those
      the gateway still reports. */
  lemma ListSessionsSpec(sessions: seq<GatewaySession>, deleted: set<string>)
    ensures var l := ListSessions(sessions, deleted);
      && SortedBy(l.rows, MainFirst)
      && multiset(l.rows) == multiset(Filter(FormatAll(sessions), (r: SessionRow) => r.key !in deleted))
      && (forall r :: r in l.rows <==> r.key !in deleted && exists i :: 0 <= i < |sessions| && r == Format(sessions[i]))
      && (forall k :: k in l.deleted <==> k in deleted && exists i :: 0 <= i < |sessions| && sessions[i].key == k)
  {
    var formatted := FormatAll(sessions);
    var shown := Filter(formatted, (r: SessionRow) => r.key !in deleted);
    MainFirstIsTotalPreorder();
    SortBySorted(shown, MainFirst);
    var l := ListSessions(sessions, deleted);
    forall r ensures r in l.rows <==> r.key !in deleted && exists i :: 0 <= i < |sessions| && r == Format(sessions[i]) {
      assert r in l.rows <==> r in multiset(l.rows);
      assert r in shown <==> r in multiset(shown);
      if r in formatted {
        var i :| 0 <= i < |formatted| && formatted[i] == r;
        assert r == Format(sessions[i]);
      }
      if exists i :: 0 <= i < |sessions| && r == Format(sessions[i]) {
        var i :| 0 <= i < |sessions| && r == Format(sessions[i]);
        assert formatted[i] == r;
      }
    }
    forall k ensures k in l.deleted <==> k in deleted && exists i :: 0 <= i < |sessions| && sessions[i].key == k {
      if k in deleted && exists i :: 0 <= i < |sessions| && sessions[i].key == k {
        var i :| 0 <= i < |sessions| && sessions[i].key == k;
        assert formatted[i] in formatted && formatted[i].key == k;
      }
    }
  }

  /** In the listing no session without "main" in its key comes before one with it. */
  lemma MainSessionsLead(sessions: seq<GatewaySession>, deleted: set<string>, i: nat, j: nat)
    requires var rows := ListSessions(sessions, deleted).rows; i < j < |rows|
    ensures var rows := ListSessions(sessions, deleted).rows;
      MainRank(rows[j].key) == 0 ==> MainRank(rows[i].key) == 0
  {
    ListSessionsSpec(sessions, deleted);
  }

  // ---------------------------------------------------------------------------------------------
  // POST /api/sessions/stop-all

  /** The sessions the emergency stop aims at: a non-empty key without "main" in any case. */
  predicate StopTarget(key: string)
  {
    key != "" && !Contains(Lower(key), "main")
  }

  /** The targeted keys whose stop call reported success, in the order listed. */
  function StoppedKeys(keys: seq<string>, stops: set<string>): seq<string>
  {
    if keys == [] then []
    else
      var k := keys[|keys| - 1];
      StoppedKeys(keys[..|keys| - 1], stops) + (if StopTarget(k) && k in stops then [k] else [])
  }

  /** The targeted keys whose stop call failed or raised, in the order listed. */
  function FailedKeys(keys: seq<string>, stops: set<string>): seq<string>
  {
    if keys == [] then []
    else
      var k := keys[|keys| - 1];
      FailedKeys(keys[..|keys| - 1], stops) + (if StopTarget(k) && k !in stops then [k] else [])
  }

  /** The loop of `stop_all_sessions`: every targeted key is stopped through the gateway, whose
      answer for each key is given by `stops` (the keys it stops successfully); the main sessions are
      left alone. */
  method StopAll(keys: seq<string>, stops: set<string>) returns (stopped: seq<string>, errors: seq<string>)
    ensures stopped == StoppedKeys(keys, stops)
    ensures errors == FailedKeys(keys, stops)
  {
    stopped, errors := [], [];
    var i := 0;
    while i < |keys|
      invariant 0 <= i <= |keys|
      invariant stopped == StoppedKeys(keys[..i], stops)
      invariant errors == FailedKeys(keys[..i], stops)
    {
      var key := keys[i];
      assert keys[..i + 1][..i] == keys[..i];
      if key != "" && !ContainsFrom(Lower(key), "main") {
        if key in stops {
          stopped := stopped + [key];
        } else {
          errors := errors + [key];
        }
      }
      i := i + 1;
    }
    assert keys[..i] == keys;
  }

  /** Every targeted key ends in exactly one of the two lists, as often as it is listed, and no key
      naming "main" in any case is ever stopped. */
  lemma {:induction false} StopAllPartition(keys: seq<string>, stops: set<string>)
    ensures forall k :: multiset(StoppedKeys(keys, stops))[k] + multiset(FailedKeys(keys, stops))[k]
                        == if StopTarget(k) then multiset(keys)[k] else 0
    ensures forall k :: k in StoppedKeys(keys, stops) ==> k in stops && k != "" && !Contains(Lower(k), "main")
    ensures forall k :: k in FailedKeys(keys, stops) ==> k !in stops && k != "" && !Contains(Lower(k), "main")
  {
    if keys != [] {
      var init := keys[..|keys| - 1];
      StopAllPartition(init, stops);
      assert keys == init + [keys[|keys| - 1]];
    }
  }
}
