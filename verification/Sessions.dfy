/** Session parents, bindings and identifiers (plurnk-acp/src/sessions.ts). The parent table may repeat ids, name
    sessions it does not hold and run in cycles. */
module Sessions {

  import opened Optional
  import Decimal

  datatype Session = Session(id: int, parent: Option<int>)

  datatype Binding = Binding(acpSessionId: string, workspaceId: int, sessionId: int)

  // ----- ancestry -----

  /** The parent of a session: the last row of its id decides, and a missing row has none. */
  function ParentOf(sessions: seq<Session>, id: int): (parent: Option<int>)
    ensures parent.Some? ==> parent.value in Parents(sessions)
  {
    if sessions == [] then None
    else
      var last := sessions[|sessions| - 1];
      if last.id == id then last.parent else ParentOf(sessions[..|sessions| - 1], id)
  }

  function Parents(sessions: seq<Session>): set<int> {
    set s | s in sessions && s.parent.Some? :: s.parent.value
  }

  /** It is the parent the row gives after which no other row has the id. */
  lemma {:induction false} ParentIsLast(sessions: seq<Session>, id: int, i: nat)
    requires i < |sessions| && sessions[i].id == id && forall j :: i < j < |sessions| ==> sessions[j].id != id
    ensures ParentOf(sessions, id) == sessions[i].parent
    decreases |sessions|
  {
    if i < |sessions| - 1 {
      ParentIsLast(sessions[..|sessions| - 1], id, i);
    }
  }

  lemma {:induction false} NoRowNoParent(sessions: seq<Session>, id: int)
    requires forall s :: s in sessions ==> s.id != id
    ensures ParentOf(sessions, id) == None
    decreases |sessions|
  {
    if sessions != [] {
      NoRowNoParent(sessions[..|sessions| - 1], id);
    }
  }

  /** The session `k` parent steps above `id`. */
  function Above(sessions: seq<Session>, id: int, k: nat): Option<int> {
    if k == 0 then Some(id)
    else
      var below :- Above(sessions, id, k - 1);
      ParentOf(sessions, below)
  }

  /** The map the walks build, row by row. */
  method ParentTable(sessions: seq<Session>) returns (parentById: map<int, Option<int>>)
    ensures forall id :: (if id in parentById then parentById[id] else None) == ParentOf(sessions, id)
  {
    parentById := map[];
    for i := 0 to |sessions|
      invariant forall id :: (if id in parentById then parentById[id] else None) == ParentOf(sessions[..i], id)
    {
      assert sessions[..i + 1][..i] == sessions[..i];
      parentById := parentById[sessions[i].id := sessions[i].parent];
    }
    assert sessions[..|sessions|] == sessions;
  }

  /** Once a walk meets a session it has seen, it meets no others ever after. */
  lemma {:induction false} CycleCloses(sessions: seq<Session>, id: int, j: nat, n: nat, k: nat) returns (i: nat)
    requires 1 <= j < n && 1 <= k && Above(sessions, id, n) == Above(sessions, id, j)
    ensures 1 <= i < n && Above(sessions, id, k) == Above(sessions, id, i)
  {
    if k < n {
      i := k;
    } else {
      CycleRepeats(sessions, id, j, n, k);
      i := CycleCloses(sessions, id, j, n, k - (n - j));
    }
  }

  lemma {:induction false} CycleRepeats(sessions: seq<Session>, id: int, j: nat, n: nat, k: nat)
    requires j < n <= k && Above(sessions, id, n) == Above(sessions, id, j)
    ensures Above(sessions, id, k) == Above(sessions, id, k - (n - j))
  {
    if k > n {
      CycleRepeats(sessions, id, j, n, k - 1);
    }
  }

  lemma {:induction false} NothingAboveNothing(sessions: seq<Session>, id: int, n: nat, k: nat)
    requires Above(sessions, id, n).None? && n <= k
    ensures Above(sessions, id, k).None?
  {
    if n < k {
      NothingAboveNothing(sessions, id, n, k - 1);
    }
  }

  /** A walk has visited the sessions of `path`: those one, two and more steps above `id`. */
  ghost predicate Walked(sessions: seq<Session>, id: int, path: seq<int>, visited: set<int>) {
    && (forall i :: 0 <= i < |path| ==> Above(sessions, id, i + 1) == Some(path[i]) && path[i] in visited)
    && (forall v :: v in visited ==> v in path)
    && visited <= Parents(sessions)
  }

  lemma WalkOn(sessions: seq<Session>, id: int, path: seq<int>, visited: set<int>, now: int)
    requires Walked(sessions, id, path, visited) && Above(sessions, id, |path| + 1) == Some(now)
    ensures Walked(sessions, id, path + [now], visited + {now}) && now in Parents(sessions)
  {
    assert ParentOf(sessions, Above(sessions, id, |path|).value) == Some(now);
  }

  /** A walk that stops has seen everything there is to see. */
  lemma WalkSawAll(sessions: seq<Session>, id: int, path: seq<int>, visited: set<int>, k: nat)
    requires Walked(sessions, id, path, visited) && k >= 1
    requires var current := Above(sessions, id, |path| + 1); current.None? || current.value in visited
    ensures Above(sessions, id, k).Some? ==> Above(sessions, id, k).value in visited
  {
    var n := |path| + 1;
    if Above(sessions, id, n).None? {
      if n <= k {
        NothingAboveNothing(sessions, id, n, k);
      } else {
        var i := k - 1;
        assert Above(sessions, id, i + 1) == Some(path[i]);
      }
    } else {
      var j :| 0 <= j < |path| && path[j] == Above(sessions, id, n).value;
      var i := CycleCloses(sessions, id, j + 1, n, k);
      assert path[i - 1] in visited;
    }
  }

  /** True exactly when another session is reached from the candidate by one or more parent steps. */
  method IsDescendantSession(sessions: seq<Session>, candidate: int, ancestor: int) returns (r: bool)
    ensures r <==> candidate != ancestor && exists k :: k >= 1 && Above(sessions, candidate, k) == Some(ancestor)
  {
    if candidate == ancestor {
      return false;
    }
    var parentById := ParentTable(sessions);
    var visited: set<int> := {};
    var current := if candidate in parentById then parentById[candidate] else None;
    ghost var path: seq<int> := [];
    assert Above(sessions, candidate, 0) == Some(candidate);
    while current.Some? && current.value !in visited
      invariant Walked(sessions, candidate, path, visited) && current == Above(sessions, candidate, |path| + 1)
      invariant ancestor !in visited
      decreases Parents(sessions) - visited
    {
      if current.value == ancestor {
        return true;
      }
      WalkOn(sessions, candidate, path, visited, current.value);
      path := path + [current.value];
      visited := visited + {current.value};
      current := if current.value in parentById then parentById[current.value] else None;
    }
    forall k | k >= 1 ensures Above(sessions, candidate, k) != Some(ancestor) {
      WalkSawAll(sessions, candidate, path, visited, k);
    }
    r := false;
  }

  // ----- bindings -----

  /** The first binding of a session in a workspace. */
  function FirstBound(bindings: seq<Binding>, workspaceId: int, id: int): (b: Option<Binding>)
    ensures b.Some? ==> b.value in bindings && b.value.workspaceId == workspaceId && b.value.sessionId == id
    ensures b.None? <==> forall x :: x in bindings ==> x.workspaceId != workspaceId || x.sessionId != id
  {
    if bindings == [] then None
    else if bindings[0].workspaceId == workspaceId && bindings[0].sessionId == id then Some(bindings[0])
    else FirstBound(bindings[1..], workspaceId, id)
  }

  lemma {:induction false} FirstBoundAppends(bindings: seq<Binding>, b: Binding, workspaceId: int, id: int)
    ensures FirstBound(bindings + [b], workspaceId, id) ==
      if FirstBound(bindings, workspaceId, id).Some? then FirstBound(bindings, workspaceId, id)
      else if b.workspaceId == workspaceId && b.sessionId == id then Some(b)
      else None
  {
    if bindings != [] {
      FirstBoundAppends(bindings[1..], b, workspaceId, id);
      assert (bindings + [b])[1..] == bindings[1..] + [b];
    }
  }

  lemma FirstBoundGrows(bindings: seq<Binding>, i: nat, workspaceId: int)
    requires i < |bindings|
    ensures forall id :: FirstBound(bindings[..i], workspaceId, id).Some? ==>
              FirstBound(bindings[..i + 1], workspaceId, id) == FirstBound(bindings[..i], workspaceId, id)
    ensures forall id :: FirstBound(bindings[..i], workspaceId, id).None? ==>
              FirstBound(bindings[..i + 1], workspaceId, id)
                == if bindings[i].workspaceId == workspaceId && bindings[i].sessionId == id then Some(bindings[i]) else None
  {
    assert bindings[..i + 1] == bindings[..i] + [bindings[i]];
    forall id {
      FirstBoundAppends(bindings[..i], bindings[i], workspaceId, id);
    }
  }

  /** `k` steps up is the nearest bound ancestor of the target. */
  ghost predicate Nearest(bindings: seq<Binding>, workspaceId: int, target: int, sessions: seq<Session>, k: nat) {
    && k >= 1
    && Above(sessions, target, k).Some?
    && FirstBound(bindings, workspaceId, Above(sessions, target, k).value).Some?
    && forall j: nat :: 1 <= j < k && Above(sessions, target, j).Some? ==>
         FirstBound(bindings, workspaceId, Above(sessions, target, j).value).None?
  }

  /** One pass over the bindings: the target's own one if it is met, or else the first one of each other session. */
  method BoundTable(bindings: seq<Binding>, workspaceId: int, target: int)
    returns (direct: Option<Binding>, boundById: map<int, Binding>)
    ensures direct == FirstBound(bindings, workspaceId, target)
    ensures direct.None? ==>
      forall id :: FirstBound(bindings, workspaceId, id) == if id in boundById then Some(boundById[id]) else None
  {
    boundById := map[];
    for i := 0 to |bindings|
      invariant FirstBound(bindings[..i], workspaceId, target).None?
      invariant forall id :: FirstBound(bindings[..i], workspaceId, id) == if id in boundById then Some(boundById[id]) else None
    {
      var b := bindings[i];
      FirstBoundGrows(bindings, i, workspaceId);
      if b.workspaceId != workspaceId {
        continue;
      }
      if b.sessionId == target {
        FirstBoundIsStable(bindings, i + 1, workspaceId, target);
        return Some(b), boundById;
      }
      if b.sessionId !in boundById {
        boundById := boundById[b.sessionId := b];
      }
    }
    assert bindings[..|bindings|] == bindings;
    direct := None;
  }

  /** The target's own binding, or else that of its nearest bound ancestor; nothing exactly when neither is there. */
  method SelectBoundSessionForTarget(bindings: seq<Binding>, workspaceId: int, target: int,
      sessions: Option<seq<Session>>)
    returns (r: Option<Binding>)
    ensures FirstBound(bindings, workspaceId, target).Some? ==> r == FirstBound(bindings, workspaceId, target)
    ensures FirstBound(bindings, workspaceId, target).None? && sessions.None? ==> r == None
    ensures FirstBound(bindings, workspaceId, target).None? && sessions.Some? && r.Some? ==>
      exists k: nat :: Nearest(bindings, workspaceId, target, sessions.value, k)
        && r == FirstBound(bindings, workspaceId, Above(sessions.value, target, k).value)
    ensures FirstBound(bindings, workspaceId, target).None? && sessions.Some? ==>
      (r.None? <==> forall k: nat :: k >= 1 && Above(sessions.value, target, k).Some? ==>
        FirstBound(bindings, workspaceId, Above(sessions.value, target, k).value).None?)
  {
    var direct, boundById := BoundTable(bindings, workspaceId, target);
    if direct.Some? {
      return direct;
    }
    if sessions.None? || |boundById| == 0 {
      return None;
    }
    ghost var rows := sessions.value;
    var parentById := ParentTable(sessions.value);
    var visited: set<int> := {};
    var current := if target in parentById then parentById[target] else None;
    ghost var path: seq<int> := [];
    assert Above(rows, target, 0) == Some(target);
    while current.Some? && current.value !in visited
      invariant Walked(rows, target, path, visited) && current == Above(rows, target, |path| + 1)
      invariant forall v :: v in visited ==> v !in boundById
      decreases Parents(rows) - visited
    {
      if current.value in boundById {
        assert forall j :: 1 <= j <= |path| ==> Above(rows, target, j) == Some(path[j - 1]);
        assert Nearest(bindings, workspaceId, target, rows, |path| + 1);
        return Some(boundById[current.value]);
      }
      WalkOn(rows, target, path, visited, current.value);
      path := path + [current.value];
      visited := visited + {current.value};
      current := if current.value in parentById then parentById[current.value] else None;
    }
    forall k: nat | k >= 1 && Above(rows, target, k).Some?
      ensures FirstBound(bindings, workspaceId, Above(rows, target, k).value).None?
    {
      WalkSawAll(rows, target, path, visited, k);
    }
    r := None;
  }

  lemma {:induction false} FirstBoundIsStable(bindings: seq<Binding>, i: nat, workspaceId: int, id: int)
    requires i <= |bindings| && FirstBound(bindings[..i], workspaceId, id).Some?
    ensures FirstBound(bindings, workspaceId, id) == FirstBound(bindings[..i], workspaceId, id)
  {
    if !(bindings[0].workspaceId == workspaceId && bindings[0].sessionId == id) {
      assert bindings[..i][1..] == bindings[1..][..i - 1];
      FirstBoundIsStable(bindings[1..], i - 1, workspaceId, id);
    }
  }

  // ----- identifiers -----

  datatype SessionId = SessionId(workspaceId: nat, sessionName: string)

  const MAX_SAFE: nat := 0x1F_FFFF_FFFF_FFFF

  function FormatSessionId(workspaceId: nat, sessionName: string): string {
    Decimal.Format(workspaceId) + ("#" + sessionName)
  }

  /** The position of the first '#'. */
  function Hash(raw: string): (i: int)
    ensures i == -1 || 0 <= i < |raw|
    ensures i == -1 ==> '#' !in raw
    ensures i != -1 ==> raw[i] == '#' && '#' !in raw[..i]
  {
    if raw == [] then -1
    else if raw[0] == '#' then 0
    else
      var i := Hash(raw[1..]);
      if i < 0 then -1
      else
        assert raw[..i + 1] == [raw[0]] + raw[1..][..i];
        i + 1
  }

  function ParseSessionId(raw: string): Option<SessionId> {
    var i := Hash(raw);
    if i <= 0 || i == |raw| - 1 then None
    else
      var prefix := raw[..i];
      if !Decimal.AllDigits(prefix) || prefix[0] == '0' then None
      else
        var id := Decimal.Value(prefix);
        if id > MAX_SAFE || id == 0 then None else Some(SessionId(id, raw[i + 1..]))
  }

  predicate Nameable(s: SessionId) {
    1 <= s.workspaceId <= MAX_SAFE && s.sessionName != []
  }

  /** Parsing accepts exactly the texts that formatting writes for the nameable identifiers, and inverts it: whatever
      the session name holds, '#' included. */
  lemma ParseIsInverse(raw: string, s: SessionId)
    ensures ParseSessionId(raw) == Some(s) <==> Nameable(s) && raw == FormatSessionId(s.workspaceId, s.sessionName)
  {
    if Nameable(s) && raw == FormatSessionId(s.workspaceId, s.sessionName) {
      ParseOfFormat(s);
    }
    if ParseSessionId(raw) == Some(s) {
      Decimal.FormatOfValue(raw[..Hash(raw)]);
      assert raw == raw[..Hash(raw)] + ("#" + raw[Hash(raw) + 1..]);
    }
  }

  lemma ParseOfFormat(s: SessionId)
    requires Nameable(s)
    ensures ParseSessionId(FormatSessionId(s.workspaceId, s.sessionName)) == Some(s)
  {
    var f := Decimal.Format(s.workspaceId);
    var raw := f + ("#" + s.sessionName);
    HashAfterDigits(f, s.sessionName);
    assert raw[..|f|] == f && raw[|f| + 1..] == s.sessionName;
    Decimal.ValueOfFormat(s.workspaceId);
  }

  lemma {:induction false} HashAfterDigits(digits: string, name: string)
    requires Decimal.AllDigits(digits)
    ensures Hash(digits + ("#" + name)) == |digits|
  {
    if digits != [] {
      HashAfterDigits(digits[1..], name);
      assert (digits + ("#" + name))[1..] == digits[1..] + ("#" + name);
    }
  }
}
