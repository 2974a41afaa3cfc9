/** The examiner service as it runs: session rows rewritten in place, with the
    transcript, probe index and pushback flag of one call kept in locals. */
module ExamStore {
  import opened Wrappers
  import opened Text
  import opened ExamSession

  class ExamStore {
    var rows: map<int, ExamRow>
    var nextId: int
    const cfg: Settings

    constructor (cfg: Settings)
      ensures rows == map[] && nextId == 1 && this.cfg == cfg
    {
      rows, nextId, this.cfg := map[], 1, cfg;
    }

    /** A session is refused when the paper is not in the library, and then when it has
        no usable section tree. */
    method CreateSession(paperKnown: bool, now: int, w: World) returns (r: Result<int, ExamError>)
      requires nextId !in rows
      modifies this
      ensures r == if !paperKnown then Err(NotFound) else if UsableTree(w) then Ok(old(nextId)) else Err(NoTree)
      ensures rows == if r.Ok? then old(rows)[old(nextId) := NewRow(cfg, now)] else old(rows)
      ensures nextId == if r.Ok? then old(nextId) + 1 else old(nextId)
    {
      if !paperKnown {
        return Err(NotFound);
      }
      if !UsableTree(w) {
        return Err(NoTree);
      }
      var transcript := [Plain(Opening, cfg.wording.opening, now)];
      rows := rows[nextId := ExamRow(Explain, 0, transcript, NO_STATE, None, None, Gaps([], [], ""),
                                     now + Max1(cfg.ttl), None)];
      r := Ok(nextId);
      nextId := nextId + 1;
    }

    /** Grade and close; a failed verdict call writes nothing. */
    method FinalizeSession(id: int, transcript0: seq<Turn>, turnCount: nat, now: int, w: World)
      returns (r: Result<Reply, ExamError>)
      requires id in rows
      modifies this`rows
      ensures r == Finalize(cfg, old(rows)[id], transcript0, turnCount, now, w)
      ensures rows == if r.Ok? then old(rows)[id := r.value.row] else old(rows)
    {
      var graded := BuildVerdict(cfg, w);
      if graded.Err? {
        return Err(graded.error);
      }
      var verdict := graded.value;
      var transcript := transcript0 + [Plain(Verdicting, verdict.summary, now)];
      var row := rows[id];
      row := row.(transcript := transcript, rubric := Some(verdict.rubric), score := Some(verdict.score));
      row := row.(gaps := GapsOf(verdict));
      row := row.(phase := Graded, turnCount := turnCount, state := NO_STATE, completedAt := Some(now));
      rows := rows[id := row];
      r := Ok(Reply(row, "", Some(verdict)));
    }

    method PersistActive(id: int, transcript: seq<Turn>, state: ExamState, turnCount: nat, now: int)
      requires id in rows
      modifies this`rows
      ensures rows == old(rows)[id := Persisted(cfg, old(rows)[id], transcript, state, turnCount, now)]
    {
      var row := rows[id];
      row := row.(transcript := transcript, phase := Probing, turnCount := turnCount, state := state);
      row := row.(expiresAt := now + Max1(cfg.ttl));
      rows := rows[id := row];
    }

    method EnsureSessionCurrent(id: int, now: int, w: World) returns (r: Result<Reply, ExamError>)
      modifies this`rows
      ensures r == if id in old(rows) then EnsureCurrent(cfg, old(rows)[id], now, w) else Err(NotFound)
      ensures rows == if r.Ok? then old(rows)[id := r.value.row] else old(rows)
    {
      if id !in rows {
        return Err(NotFound);
      }
      var row := rows[id];
      if !Expired(row, now) {
        assert rows[id := row] == rows;
        return Ok(Reply(row, "", VerdictFromRow(cfg, row)));
      }
      r := FinalizeSession(id, row.transcript, row.turnCount, now, w);
    }

    /** Exactly one user turn. Only this session's row can change, and only when the
        call succeeds. */
    method AdvanceSession(id: int, answer: Answer, now: int, w: World) returns (r: Result<Reply, ExamError>)
      modifies this`rows
      ensures r == if id in old(rows) then Advance(cfg, old(rows)[id], answer, now, w) else Err(NotFound)
      ensures rows == if r.Ok? then old(rows)[id := r.value.row] else old(rows)
    {
      if id !in rows {
        return Err(NotFound);
      }
      var session := rows[id];
      if session.phase.Graded? {
        assert rows[id := session] == rows;
        return Ok(Reply(session, "", VerdictFromRow(cfg, session)));
      }
      if Expired(session, now) {
        r := FinalizeSession(id, session.transcript, session.turnCount, now, w);
        return;
      }
      var transcript := session.transcript + [Plain(Answering, Strip(answer.text), now)];
      var turnCount := session.turnCount + 1;
      if answer.done || turnCount >= Max1(cfg.maxTurns) {
        r := FinalizeSession(id, transcript, turnCount, now, w);
        return;
      }
      if session.phase.Explain? {
        var plan := PlanProbes(cfg, w);
        PlanSize(cfg, w);
        if plan.Err? {
          return Err(plan.error);
        }
        var probe := plan.value[0];
        transcript := transcript + [AskTurn(probe, now)];
        PersistActive(id, transcript, ExamState(plan.value, 0, false), turnCount, now);
        return Ok(Reply(rows[id], probe.question, None));
      }
      r := AnswerProbe(id, session, answer.vague, transcript, turnCount, now, w);
    }

    method AnswerProbe(id: int, session: ExamRow, vague: bool, transcript0: seq<Turn>, turnCount: nat, now: int,
                       w: World)
      returns (r: Result<Reply, ExamError>)
      requires id in rows && session == rows[id]
      modifies this`rows
      ensures var state := StateFromRaw(session.state);
              r == if state.probeIndex >= |state.probes| then Finalize(cfg, session, transcript0, turnCount, now, w)
                   else AfterProbe(cfg, session, state, vague, transcript0, turnCount, now, w)
      ensures rows == if r.Ok? then old(rows)[id := r.value.row] else old(rows)
    {
      var state := StateFromRaw(session.state);
      var probes, probeIndex, pushbackUsed := state.probes, state.probeIndex, state.pushbackUsed;
      if |probes| == 0 || probeIndex >= |probes| {
        r := FinalizeSession(id, transcript0, turnCount, now, w);
        return;
      }
      var transcript := transcript0;
      var probe := probes[probeIndex];
      if vague && !pushbackUsed {
        pushbackUsed := true;
        var pushback := PushbackText(cfg, probe);
        transcript := transcript + [Turn(Pushback, pushback, now, Some(probe.section), None, None)];
        PersistActive(id, transcript, ExamState(probes, probeIndex, pushbackUsed), turnCount, now);
        return Ok(Reply(rows[id], pushback, None));
      }
      probeIndex := probeIndex + 1;
      pushbackUsed := false;
      if probeIndex >= |probes| {
        r := FinalizeSession(id, transcript, turnCount, now, w);
        return;
      }
      var next := probes[probeIndex];
      transcript := transcript + [AskTurn(next, now)];
      PersistActive(id, transcript, ExamState(probes, probeIndex, pushbackUsed), turnCount, now);
      r := Ok(Reply(rows[id], next.question, None));
    }
  }
}
