/** Which names a body assigns, and which declarations become mutable, said by positions in the body. */
module CFlags {
  import opened Outcomes
  import opened CStatements

  /** Into a loop body, or into either body of a conditional. */
  datatype Turn = IntoLoop | IntoThen | IntoElse

  /** Past this many statements, and then into the next one. */
  datatype Hop = Hop(past: nat, turn: Turn)

  /** The statement at the end of the hops and past `last` statements more. */
  function Find(ss: seq<Stmt>, hops: seq<Hop>, last: nat): Option<Stmt>
    decreases |hops|
  {
    if hops == [] then if last < |ss| then Some(ss[last]) else None
    else if hops[0].past >= |ss| then None
    else
      match (ss[hops[0].past], hops[0].turn)
      case (While(_, body), IntoLoop) => Find(body, hops[1..], last)
      case (If(_, yes, _), IntoThen) => Find(yes, hops[1..], last)
      case (If(_, _, no), IntoElse) => Find(no, hops[1..], last)
      case _ => None
  }

  predicate AssignsAt(ss: seq<Stmt>, hops: seq<Hop>, last: nat, name: string) {
    var s := Find(ss, hops, last);
    s.Some? && s.value.Assign? && s.value.name == name
  }

  ghost predicate Assigns(ss: seq<Stmt>, name: string) {
    exists hops: seq<Hop>, last: nat :: AssignsAt(ss, hops, last, name)
  }

  // ---- one statement further ----

  lemma FoundBehind(ss: seq<Stmt>, hops: seq<Hop>, last: nat)
    requires ss != []
    ensures hops == [] ==> Find(ss, hops, last + 1) == Find(ss[1..], hops, last)
    ensures hops != [] ==>
      Find(ss, [Hop(hops[0].past + 1, hops[0].turn)] + hops[1..], last) == Find(ss[1..], hops, last)
  {
    if hops != [] {
      var moved := [Hop(hops[0].past + 1, hops[0].turn)] + hops[1..];
      assert moved[1..] == hops[1..];
      if hops[0].past < |ss[1..]| {
        assert ss[1..][hops[0].past] == ss[hops[0].past + 1];
      }
    }
  }

  lemma AssignsBehind(ss: seq<Stmt>, name: string)
    requires ss != [] && Assigns(ss[1..], name)
    ensures Assigns(ss, name)
  {
    var hops: seq<Hop>, last: nat :| AssignsAt(ss[1..], hops, last, name);
    FoundBehind(ss, hops, last);
    if hops == [] {
      assert AssignsAt(ss, hops, last + 1, name);
    } else {
      assert AssignsAt(ss, [Hop(hops[0].past + 1, hops[0].turn)] + hops[1..], last, name);
    }
  }

  /** Assigned inside the first statement's body on this side. */
  lemma AssignsInside(ss: seq<Stmt>, turn: Turn, body: seq<Stmt>, name: string)
    requires ss != [] && Assigns(body, name)
    requires match ss[0]
      case While(_, b) => turn == IntoLoop && body == b
      case If(_, yes, no) => (turn == IntoThen && body == yes) || (turn == IntoElse && body == no)
      case _ => false
    ensures Assigns(ss, name)
  {
    var hops: seq<Hop>, last: nat :| AssignsAt(body, hops, last, name);
    var more := [Hop(0, turn)] + hops;
    assert more[1..] == hops;
    assert AssignsAt(ss, more, last, name);
  }

  /** An assignment is the first statement, inside it, or behind it. */
  lemma AssignsWhere(ss: seq<Stmt>, name: string)
    requires Assigns(ss, name)
    ensures ss != []
    ensures Assigns(ss[1..], name) || match ss[0]
      case Assign(n, _) => n == name
      case While(_, body) => Assigns(body, name)
      case If(_, yes, no) => Assigns(yes, name) || Assigns(no, name)
      case _ => false
  {
    var hops: seq<Hop>, last: nat :| AssignsAt(ss, hops, last, name);
    if hops == [] {
      if last > 0 {
        assert AssignsAt(ss[1..], hops, last - 1, name);
      }
    } else if hops[0].past > 0 {
      var back := [Hop(hops[0].past - 1, hops[0].turn)] + hops[1..];
      FoundBehind(ss, back, last);
      assert back[1..] == hops[1..];
      assert [Hop(back[0].past + 1, back[0].turn)] + back[1..] == hops;
      assert AssignsAt(ss[1..], back, last, name);
    } else {
      var body := if hops[0].turn == IntoLoop then ss[0].body
                  else if hops[0].turn == IntoThen then ss[0].thenBody else ss[0].elseBody;
      assert AssignsAt(body, hops[1..], last, name);
    }
  }

  /** The reassigned names are exactly those that some statement, at any depth, assigns. */
  lemma {:induction false} ReassignedExactly(ss: seq<Stmt>, name: string)
    ensures name in Reassigned(ss) <==> Assigns(ss, name)
    decreases ss
  {
    hide Assigns;
    if ss == [] {
      NothingAssigned(name);
    } else {
      ReassignedExactly(ss[1..], name);
      FirstReassigned(ss, name);
      if Assigns(ss, name) {
        AssignsWhere(ss, name);
      }
    }
  }

  lemma NothingAssigned(name: string)
    ensures !Assigns([], name)
  {
    if Assigns([], name) {
      AssignsWhere([], name);
    }
  }

  lemma FirstReassigned(ss: seq<Stmt>, name: string)
    requires ss != []
    requires name in Reassigned(ss[1..]) <==> Assigns(ss[1..], name)
    ensures name in Reassigned(ss) ==> Assigns(ss, name)
    ensures match ss[0]
      case Assign(n, _) => name == n ==> name in Reassigned(ss)
      case While(_, body) => Assigns(body, name) ==> name in Reassigned(ss)
      case If(_, yes, no) => Assigns(yes, name) || Assigns(no, name) ==> name in Reassigned(ss)
      case _ => true
    decreases ss, 0
  {
    hide Assigns, Reassigned, ReassignedBy;
    match ss[0] {
      case Assign(n, _) => AssignsHere(ss);
      case While(_, body) =>
        ReassignedExactly(body, name);
        if Assigns(body, name) {
          AssignsInside(ss, IntoLoop, body, name);
        }
      case If(_, yes, no) =>
        ReassignedExactly(yes, name);
        ReassignedExactly(no, name);
        if Assigns(yes, name) {
          AssignsInside(ss, IntoThen, yes, name);
        }
        if Assigns(no, name) {
          AssignsInside(ss, IntoElse, no, name);
        }
      case _ =>
    }
    if Assigns(ss[1..], name) {
      AssignsBehind(ss, name);
    }
    ReassignedSplit(ss, name);
  }

  lemma ReassignedSplit(ss: seq<Stmt>, name: string)
    requires ss != []
    ensures name in Reassigned(ss) <==> name in Reassigned(ss[1..]) || match ss[0]
      case Assign(n, _) => name == n
      case While(_, body) => name in Reassigned(body)
      case If(_, yes, no) => name in Reassigned(yes) || name in Reassigned(no)
      case _ => false
  {
  }

  lemma AssignsHere(ss: seq<Stmt>)
    requires ss != [] && ss[0].Assign?
    ensures Assigns(ss, ss[0].name)
  {
    assert AssignsAt(ss, [], 0, ss[0].name);
  }

  // ---- marking ----

  /** A statement with the flag of its own declaration set, if it is one; the bodies it holds are not looked at. */
  predicate SameBut(before: Stmt, after: Stmt, names: set<string>) {
    match before
    case Let(name, ty, value, mutable) => after == Let(name, ty, value, mutable || name in names)
    case While(cond, body) => after.While? && after.cond == cond && |after.body| == |body|
    case If(cond, yes, no) =>
      after.If? && after.cond == cond && |after.thenBody| == |yes| && |after.elseBody| == |no|
    case _ => after == before
  }

  /** Wherever a statement stands, marking leaves it there and sets exactly the flags of the named declarations. */
  lemma {:induction false} MarkedExactly(ss: seq<Stmt>, names: set<string>, hops: seq<Hop>, last: nat)
    ensures match Find(ss, hops, last)
      case None => Find(Marked(ss, names), hops, last) == None
      case Some(s) => var t := Find(Marked(ss, names), hops, last); t.Some? && SameBut(s, t.value, names)
    decreases |hops|
  {
    hide Marked, MarkedStmt;
    if hops == [] {
      if last < |ss| {
        MarkedAt(ss, names, last);
      }
    } else if hops[0].past < |ss| {
      MarkedAt(ss, names, hops[0].past);
      match ss[hops[0].past] {
        case While(_, body) => MarkedExactly(body, names, hops[1..], last);
        case If(_, yes, no) =>
          MarkedExactly(yes, names, hops[1..], last);
          MarkedExactly(no, names, hops[1..], last);
        case _ =>
      }
    }
  }

  lemma {:induction false} MarkedAt(ss: seq<Stmt>, names: set<string>, i: nat)
    requires i < |ss|
    ensures Marked(ss, names)[i] == MarkedStmt(ss[i], names) && SameBut(ss[i], Marked(ss, names)[i], names)
    ensures ss[i].While? ==> Marked(ss, names)[i].body == Marked(ss[i].body, names)
    ensures ss[i].If? ==> Marked(ss, names)[i].thenBody == Marked(ss[i].thenBody, names)
    ensures ss[i].If? ==> Marked(ss, names)[i].elseBody == Marked(ss[i].elseBody, names)
  {
    if i > 0 {
      MarkedAt(ss[1..], names, i - 1);
    }
  }
}
