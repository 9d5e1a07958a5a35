/**
 Who hears an event about a conversation: room names, the audience the publisher addresses, the rooms a
 socket joins, and the read rule they are meant to agree with.
 */
module Realtime {
  import opened Common

  /** Ids carry no colon, so a name splits in one way. */
  predicate IsId(s: string) { ':' !in s }

  type Id = s: string | IsId(s) witness "0"

  // --- Room names -------------------------------------------------------------------------------

  datatype Room =
    | TenantRoom(tenant: Id)
    | ReadersRoom(tenant: Id)
    | CannedResponseRoom(tenant: Id)
    | ConversationRoom(conversation: Id)
    | UserRoom(user: Id)
    | TeamRoom(team: Id)

  function Name(r: Room): string {
    match r
    case TenantRoom(t) => "tenant:" + t
    case ReadersRoom(t) => "tenant:" + t + ":conversation-readers"
    case CannedResponseRoom(t) => "tenant:" + t + ":canned-response-readers"
    case ConversationRoom(c) => "conversation:" + c
    case UserRoom(u) => "user:" + u
    case TeamRoom(t) => "team:" + t
  }

  function Prefix(r: Room): string {
    match r
    case TenantRoom(_) => "tenant"
    case ReadersRoom(_) => "tenant"
    case CannedResponseRoom(_) => "tenant"
    case ConversationRoom(_) => "conversation"
    case UserRoom(_) => "user"
    case TeamRoom(_) => "team"
  }

  function RoomId(r: Room): Id {
    match r
    case TenantRoom(t) => t
    case ReadersRoom(t) => t
    case CannedResponseRoom(t) => t
    case ConversationRoom(c) => c
    case UserRoom(u) => u
    case TeamRoom(t) => t
  }

  function Suffix(r: Room): string {
    match r
    case ReadersRoom(_) => ":conversation-readers"
    case CannedResponseRoom(_) => ":canned-response-readers"
    case _ => ""
  }

  function FirstColon(s: string): nat {
    if s == [] || s[0] == ':' then 0 else 1 + FirstColon(s[1..])
  }

  lemma {:induction false} FirstColonAfterId(a: string, x: string)
    requires IsId(a) && (x == "" || x[0] == ':')
    ensures FirstColon(a + x) == |a|
  {
    if a == [] {
      assert a + x == x;
    } else {
      assert a[0] in a && (a + x)[1..] == a[1..] + x;
      FirstColonAfterId(a[1..], x);
    }
  }

  /** Text up to the first colon, and from it on, are determined by the whole. */
  lemma SplitAtColon(a: string, b: string, x: string, y: string)
    requires IsId(a) && IsId(b) && (x == "" || x[0] == ':') && (y == "" || y[0] == ':')
    requires a + x == b + y
    ensures a == b && x == y
  {
    FirstColonAfterId(a, x);
    FirstColonAfterId(b, y);
    var whole := a + x;
    assert a == whole[..|a|] && b == whole[..|b|];
    assert x == whole[|a|..] && y == whole[|b|..];
  }

  /** Names of different kinds or different ids never collide, so no event crosses to another tenant, user or team by name. */
  lemma NamesInjective(r: Room, s: Room)
    ensures Name(r) == Name(s) <==> r == s
  {
    if Name(r) == Name(s) {
      NameParts(r);
      NameParts(s);
      SplitAtColon(Prefix(r), Prefix(s), ":" + (RoomId(r) + Suffix(r)), ":" + (RoomId(s) + Suffix(s)));
      assert (":" + (RoomId(r) + Suffix(r)))[1..] == RoomId(r) + Suffix(r);
      assert (":" + (RoomId(s) + Suffix(s)))[1..] == RoomId(s) + Suffix(s);
      SplitAtColon(RoomId(r), RoomId(s), Suffix(r), Suffix(s));
      KindsDiffer(r, s);
    }
  }

  lemma Regroup(a: string, b: string, c: string, d: string)
    ensures a + b + c + d == a + (b + (c + d))
    ensures a + b + c == a + (b + (c + ""))
  {
  }

  lemma NameParts(r: Room)
    ensures Name(r) == Prefix(r) + (":" + (RoomId(r) + Suffix(r))) && IsId(Prefix(r))
  {
    Regroup(Prefix(r), ":", RoomId(r), Suffix(r));
    assert "tenant" + ":" == "tenant:" && "conversation" + ":" == "conversation:";
    assert "user" + ":" == "user:" && "team" + ":" == "team:";
  }

  lemma KindsDiffer(r: Room, s: Room)
    requires Prefix(r) == Prefix(s) && RoomId(r) == RoomId(s) && Suffix(r) == Suffix(s)
    ensures r == s
  {
    assert "tenant" != "conversation" && "tenant"[0] != "user"[0] && "tenant" != "team" && "conversation" != "user";
    assert |"conversation"| != |"team"| && "user"[0] != "team"[0];
    assert |":conversation-readers"| != |":canned-response-readers"|;
  }

  // --- Audience and membership ------------------------------------------------------------------

  datatype Audience = Audience(tenant: Id, user: Option<Id>, team: Option<Id>)

  function AudienceRooms(a: Audience): seq<Room> {
    [ReadersRoom(a.tenant)]
    + (if a.user.Some? then [UserRoom(a.user.value)] else [])
    + (if a.team.Some? then [TeamRoom(a.team.value)] else [])
    + (if a.user.None? && a.team.None? then [TenantRoom(a.tenant)] else [])
  }

  function Names(rooms: seq<Room>): (names: seq<string>)
    ensures |names| == |rooms| && forall i :: 0 <= i < |rooms| ==> names[i] == Name(rooms[i])
  {
    seq(|rooms|, i requires 0 <= i < |rooms| => Name(rooms[i]))
  }

  method ConversationAudienceRooms(a: Audience) returns (rooms: seq<string>)
    ensures rooms == Names(AudienceRooms(a))
  {
    rooms := [Name(ReadersRoom(a.tenant))];
    if a.user.Some? {
      rooms := rooms + [Name(UserRoom(a.user.value))];
    }
    if a.team.Some? {
      rooms := rooms + [Name(TeamRoom(a.team.value))];
    }
    if a.user.None? && a.team.None? {
      rooms := rooms + [Name(TenantRoom(a.tenant))];
    }
  }

  datatype Principal = Principal(tenant: Id, user: Id, teams: set<Id>, readAll: bool, readsCannedResponses: bool)

  /** The rooms a socket is joined to when it connects, and no others are ever addressed. */
  function Joined(p: Principal): set<Room> {
    {TenantRoom(p.tenant), UserRoom(p.user)}
    + (set t | t in p.teams :: TeamRoom(t))
    + (if p.readAll then {ReadersRoom(p.tenant)} else {})
    + (if p.readsCannedResponses then {CannedResponseRoom(p.tenant)} else {})
  }

  /** Socket.IO delivers to a socket in any of the named rooms, once. */
  ghost predicate Reaches(names: seq<string>, p: Principal) {
    exists r, i :: r in Joined(p) && 0 <= i < |names| && names[i] == Name(r)
  }

  // --- The read rule ----------------------------------------------------------------------------

  predicate IsVisible(a: Audience, p: Principal) {
    p.readAll || a.user == Some(p.user) || (a.team.Some? && a.team.value in p.teams)
  }

  predicate IsUnclaimed(a: Audience) { a.user.None? && a.team.None? }

  predicate IsVisibleOrUnclaimed(a: Audience, p: Principal) { IsVisible(a, p) || IsUnclaimed(a) }

  /** The composite foreign keys: an assignee or team belongs to the record's tenant, and a principal to its own. */
  predicate OneHome(home: map<Id, Id>, a: Audience, p: Principal) {
    && (a.user.Some? ==> a.user.value in home && home[a.user.value] == a.tenant)
    && (a.team.Some? ==> a.team.value in home && home[a.team.value] == a.tenant)
    && p.user in home && home[p.user] == p.tenant
    && forall t :: t in p.teams ==> t in home && home[t] == p.tenant
  }

  lemma ReachesByRoom(rooms: seq<Room>, p: Principal)
    ensures Reaches(Names(rooms), p) <==> exists r :: r in rooms && r in Joined(p)
  {
    if Reaches(Names(rooms), p) {
      var r, i :| r in Joined(p) && 0 <= i < |rooms| && Names(rooms)[i] == Name(r);
      NamesInjective(rooms[i], r);
    }
    if r :| r in rooms && r in Joined(p) {
      var i :| 0 <= i < |rooms| && rooms[i] == r;
      assert Names(rooms)[i] == Name(r);
    }
  }

  lemma InAudience(a: Audience, r: Room)
    ensures r in AudienceRooms(a) <==>
              || r == ReadersRoom(a.tenant)
              || (a.user.Some? && r == UserRoom(a.user.value))
              || (a.team.Some? && r == TeamRoom(a.team.value))
              || (IsUnclaimed(a) && r == TenantRoom(a.tenant))
  {
  }

  /**
   An emit reaches a socket exactly when its principal is in the conversation's tenant and the read rule
   admits it for the current assignment: the room fan-out is neither wider nor narrower than the API.
   */
  lemma AudienceIsTheReadRule(home: map<Id, Id>, a: Audience, p: Principal)
    requires OneHome(home, a, p)
    ensures Reaches(Names(AudienceRooms(a)), p) <==> p.tenant == a.tenant && IsVisibleOrUnclaimed(a, p)
  {
    ReachesByRoom(AudienceRooms(a), p);
    if r :| r in AudienceRooms(a) && r in Joined(p) {
      SharedRoomIsVisible(home, a, p, r);
    }
    if p.tenant == a.tenant && IsVisibleOrUnclaimed(a, p) {
      var r := VisibleByRoom(a, p);
    }
  }

  lemma SharedRoomIsVisible(home: map<Id, Id>, a: Audience, p: Principal, r: Room)
    requires OneHome(home, a, p) && r in AudienceRooms(a) && r in Joined(p)
    ensures p.tenant == a.tenant && IsVisibleOrUnclaimed(a, p)
  {
    InAudience(a, r);
  }

  /** The branch of the read rule that admits a principal names a room both sides share. */
  lemma VisibleByRoom(a: Audience, p: Principal) returns (r: Room)
    requires p.tenant == a.tenant && IsVisibleOrUnclaimed(a, p)
    ensures r in AudienceRooms(a) && r in Joined(p)
  {
    r := if p.readAll then ReadersRoom(a.tenant)
         else if a.user == Some(p.user) then UserRoom(p.user)
         else if a.team.Some? then TeamRoom(a.team.value)
         else TenantRoom(a.tenant);
    InAudience(a, r);
  }

  // --- Hand-overs and runs ----------------------------------------------------------------------

  function Dedupe(s: seq<string>): (t: seq<string>)
    ensures forall x :: x in t <==> x in s
    ensures forall i, j :: 0 <= i < j < |t| ==> t[i] != t[j]
  {
    if s == [] then []
    else
      var rest := Dedupe(s[..|s| - 1]);
      if s[|s| - 1] in rest then rest else rest + [s[|s| - 1]]
  }

  function HandoverRooms(before: Audience, after: Audience): seq<string> {
    Dedupe(Names(AudienceRooms(before)) + Names(AudienceRooms(after)))
  }

  lemma ReachesUnion(one: seq<string>, two: seq<string>, p: Principal)
    ensures Reaches(Dedupe(one + two), p) <==> Reaches(one, p) || Reaches(two, p)
  {
    var both := Dedupe(one + two);
    if Reaches(both, p) {
      var r, i :| r in Joined(p) && 0 <= i < |both| && both[i] == Name(r);
      assert Name(r) in one + two;
      if Name(r) in one {
        var j :| 0 <= j < |one| && one[j] == Name(r);
      } else {
        var j :| 0 <= j < |two| && two[j] == Name(r);
      }
    }
    if Reaches(one, p) || Reaches(two, p) {
      var r :| r in Joined(p) && (Name(r) in one || Name(r) in two);
      assert Name(r) in both;
      var i :| 0 <= i < |both| && both[i] == Name(r);
    }
  }

  /** A hand-over reaches exactly those who could read the thread before it or can read it after. */
  lemma HandoverReachesBothAudiences(home: map<Id, Id>, before: Audience, after: Audience, p: Principal)
    requires OneHome(home, before, p) && OneHome(home, after, p) && before.tenant == after.tenant
    ensures Reaches(HandoverRooms(before, after), p) <==>
              p.tenant == after.tenant && (IsVisibleOrUnclaimed(before, p) || IsVisibleOrUnclaimed(after, p))
  {
    ReachesUnion(Names(AudienceRooms(before)), Names(AudienceRooms(after)), p);
    AudienceIsTheReadRule(home, before, p);
    AudienceIsTheReadRule(home, after, p);
  }

  datatype Step = Assigns(user: Option<Id>, team: Option<Id>) | Emits

  function After(a: Audience, steps: seq<Step>): Audience {
    if steps == [] then a
    else
      match steps[|steps| - 1]
      case Assigns(user, team) => a.(user := user, team := team)
      case Emits => After(a, steps[..|steps| - 1])
  }

  /** The rooms the last step of a run addresses. */
  function Addressed(a: Audience, steps: seq<Step>): seq<string>
    requires steps != []
  {
    var before, now := After(a, steps[..|steps| - 1]), After(a, steps);
    if steps[|steps| - 1].Emits? then Names(AudienceRooms(now)) else HandoverRooms(before, now)
  }

  /** The ids of a whole run stay in the conversation's tenant. */
  predicate StepsHome(home: map<Id, Id>, tenant: Id, steps: seq<Step>) {
    forall k | 0 <= k < |steps| ::
      steps[k].Assigns? ==>
        (steps[k].user.Some? ==> steps[k].user.value in home && home[steps[k].user.value] == tenant)
        && (steps[k].team.Some? ==> steps[k].team.value in home && home[steps[k].team.value] == tenant)
  }

  lemma {:induction false} AfterHome(home: map<Id, Id>, a: Audience, p: Principal, steps: seq<Step>)
    requires OneHome(home, a, p) && StepsHome(home, a.tenant, steps)
    ensures OneHome(home, After(a, steps), p) && After(a, steps).tenant == a.tenant
  {
    if steps == [] {
    } else {
      AfterHome(home, a, p, steps[..|steps| - 1]);
    }
  }

  /**
   In every run of claims, releases, reassignments and messages, what goes out last reaches a socket
   exactly when its principal is of the tenant and may read the thread as it is now held, or, for a
   hand-over, as it was held a moment before. No membership goes stale when a thread changes hands.
   */
  lemma {:induction false} EveryEmitFollowsTheReadRule(home: map<Id, Id>, a: Audience, p: Principal, steps: seq<Step>)
    requires steps != [] && OneHome(home, a, p) && StepsHome(home, a.tenant, steps)
    ensures Reaches(Addressed(a, steps), p) <==>
              p.tenant == a.tenant
              && (IsVisibleOrUnclaimed(After(a, steps), p)
                  || (steps[|steps| - 1].Assigns? && IsVisibleOrUnclaimed(After(a, steps[..|steps| - 1]), p)))
  {
    AfterHome(home, a, p, steps);
    AfterHome(home, a, p, steps[..|steps| - 1]);
    AudienceIsTheReadRule(home, After(a, steps), p);
    HandoverReachesBothAudiences(home, After(a, steps[..|steps| - 1]), After(a, steps), p);
  }
}
