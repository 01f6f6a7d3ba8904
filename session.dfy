/** `VideoFaceMatcherLoggedUser`: the session state machine that turns each
    frame's outcome (were faces found, which user matched) into debounced
    `login`, `logout` and unknown-user events for the host. The wall clock
    (`time.time()`) is the parameter `now`; the events go to the sink
    `send_to_node`, modelled as the sequence `sent`. */
module LoggedUser {
  import opened Channel
  import FaceDetection

  /** `current_user`: `None`, the unknown face `0`, or a user login. */
  datatype Identity = NoUser | Unknown | User(login: string)

  /** Seconds without a match before faces that match nobody count as unknown. */
  const UnknownDelay: real := 5.0

  /** The four fields the state machine updates. */
  datatype Session = Session(currentUser: Identity, loginTimestamp: real,
                             lastMatch: Option<string>, sameUserDetectedInRow: int)

  /** The new session and the events one frame sends. */
  datatype Outcome = Outcome(session: Session, sent: seq<Record>)

  /** The state `__init__` sets up; `login_timestamp` starts at 0 (see
      `TimestampAsWritten` for the struct the source starts it with). */
  function InitialSession(): Session
  {
    Session(NoUser, 0.0, None, 0)
  }

  /** How `current_user` appears in a JSON message. */
  function IdentityJson(u: Identity): Value
  {
    match u
    case NoUser => JNull
    case Unknown => JNum(0.0)
    case User(login) => JStr(login)
  }

  /** `send_to_node("login", {"user": login, "confidence": str(10000)})`. */
  function LoginRecord(login: string): Record
  {
    Record("login", JObj(map["user" := JStr(login), "confidence" := JStr("10000")]))
  }

  /** `send_to_node("login", {"user": 0, "confidence": None})`. */
  function UnknownLoginRecord(): Record
  {
    Record("login", JObj(map["user" := JNum(0.0), "confidence" := JNull]))
  }

  /** `send_to_node("logout", {"user": current_user})`. */
  function LogoutRecord(u: Identity): Record
  {
    Record("logout", JObj(map["user" := IdentityJson(u)]))
  }

  /** One call of `render_match_results`: `matched` is the matched image's
      `user_login` (or `None`), `faceRects` the regions found in the frame. */
  function Step(s: Session, matched: Option<string>, faceRects: seq<FaceDetection.Region>,
                now: real, logoutDelay: int): Outcome
  {
    if faceRects == [] then
      if s.currentUser != NoUser && now - s.loginTimestamp > logoutDelay as real then
        Outcome(s.(sameUserDetectedInRow := 0, currentUser := NoUser), [LogoutRecord(s.currentUser)])
      else
        Outcome(s, [])
    else if matched.Some? then
      var login := matched.value;
      var counted :=
        if Some(login) == s.lastMatch && s.sameUserDetectedInRow < 2 then s.sameUserDetectedInRow + 1
        else s.sameUserDetectedInRow;
      var inRow := if Some(login) != s.lastMatch then 0 else counted;
      if User(login) != s.currentUser && inRow > 1 then
        Outcome(Session(User(login), now, Some(login), inRow), [LoginRecord(login)])
      else
        Outcome(Session(s.currentUser, now, Some(login), inRow), [])
    else if s.currentUser != Unknown && now - s.loginTimestamp > UnknownDelay then
      Outcome(s.(loginTimestamp := now, currentUser := Unknown), [UnknownLoginRecord()])
    else
      Outcome(s, [])
  }

  class LoggedUserMatcher {
    const logoutDelay: int
    var currentUser: Identity
    var loginTimestamp: real
    var lastMatch: Option<string>
    var sameUserDetectedInRow: int
    /** Everything passed to `send_to_node`, oldest first. */
    var sent: seq<Record>

    function State(): Session
      reads this
    {
      Session(currentUser, loginTimestamp, lastMatch, sameUserDetectedInRow)
    }

    ghost predicate Valid()
      reads this
    {
      0 <= sameUserDetectedInRow <= 2
    }

    constructor (logoutDelay: int)
      ensures Valid()
      ensures this.logoutDelay == logoutDelay && State() == InitialSession() && sent == []
    {
      this.logoutDelay := logoutDelay;
      currentUser := NoUser;
      loginTimestamp := 0.0;
      lastMatch := None;
      sameUserDetectedInRow := 0;
      sent := [];
    }

    method RenderMatchResults(matched: Option<string>, faceRects: seq<FaceDetection.Region>, now: real)
      requires Valid()
      modifies this
      ensures Valid()
      ensures State() == Step(old(State()), matched, faceRects, now, logoutDelay).session
      ensures sent == old(sent) + Step(old(State()), matched, faceRects, now, logoutDelay).sent
    {
      if faceRects == [] {
        if currentUser != NoUser && now - loginTimestamp > logoutDelay as real {
          sent := sent + [LogoutRecord(currentUser)];
          sameUserDetectedInRow := 0;
          currentUser := NoUser;
        }
        return;
      }
      if matched.Some? {
        var userLogin := matched.value;
        loginTimestamp := now;
        if Some(userLogin) == lastMatch && sameUserDetectedInRow < 2 {
          sameUserDetectedInRow := sameUserDetectedInRow + 1;
        }
        if Some(userLogin) != lastMatch {
          sameUserDetectedInRow := 0;
        }
        if User(userLogin) != currentUser && sameUserDetectedInRow > 1 {
          currentUser := User(userLogin);
          sent := sent + [LoginRecord(userLogin)];
        }
        lastMatch := Some(userLogin);
      } else if currentUser != Unknown && now - loginTimestamp > UnknownDelay {
        loginTimestamp := now;
        currentUser := Unknown;
        sent := sent + [UnknownLoginRecord()];
      }
    }
  }

  /** One frame as the state machine sees it. */
  datatype Frame = Frame(matched: Option<string>, faceRects: seq<FaceDetection.Region>, now: real)

  /** Frames processed in order: the final session and every event sent. */
  function Run(s: Session, frames: seq<Frame>, logoutDelay: int): Outcome
    decreases |frames|
  {
    if frames == [] then Outcome(s, [])
    else
      var first := Step(s, frames[0].matched, frames[0].faceRects, frames[0].now, logoutDelay);
      var rest := Run(first.session, frames[1..], logoutDelay);
      Outcome(rest.session, first.sent + rest.sent)
  }

  /** `same_user_detected_in_row` never leaves 0..2. */
  lemma CounterStaysInRange(s: Session, matched: Option<string>, faceRects: seq<FaceDetection.Region>,
                            now: real, logoutDelay: int)
    requires 0 <= s.sameUserDetectedInRow <= 2
    ensures 0 <= Step(s, matched, faceRects, now, logoutDelay).session.sameUserDetectedInRow <= 2
  {
  }

  lemma {:induction false} RunKeepsCounterInRange(s: Session, frames: seq<Frame>, logoutDelay: int)
    requires 0 <= s.sameUserDetectedInRow <= 2
    ensures 0 <= Run(s, frames, logoutDelay).session.sameUserDetectedInRow <= 2
    decreases |frames|
  {
    if frames != [] {
      var f := frames[0];
      CounterStaysInRange(s, f.matched, f.faceRects, f.now, logoutDelay);
      RunKeepsCounterInRange(Step(s, f.matched, f.faceRects, f.now, logoutDelay).session, frames[1..], logoutDelay);
    }
  }

  /** A frame without faces logs the current identity out, once the logout
      delay has passed since the last match, and otherwise changes nothing;
      it never touches `last_match` or `login_timestamp`. */
  lemma FacelessFrame(s: Session, matched: Option<string>, now: real, logoutDelay: int)
    ensures var o := Step(s, matched, [], now, logoutDelay);
      && o.session.lastMatch == s.lastMatch && o.session.loginTimestamp == s.loginTimestamp
      && (s.currentUser != NoUser && now - s.loginTimestamp > logoutDelay as real ==>
            o.sent == [LogoutRecord(s.currentUser)] && o.session.currentUser == NoUser
            && o.session.sameUserDetectedInRow == 0)
      && (!(s.currentUser != NoUser && now - s.loginTimestamp > logoutDelay as real) ==>
            o == Outcome(s, []))
  {
  }

  /** However many face-less frames arrive, at most one `logout` is sent, and
      none once nobody is logged in. */
  lemma {:induction false} FacelessRunLogsOutAtMostOnce(s: Session, frames: seq<Frame>, logoutDelay: int)
    requires forall i :: 0 <= i < |frames| ==> frames[i].faceRects == []
    ensures |Run(s, frames, logoutDelay).sent| <= 1
    ensures s.currentUser == NoUser ==> Run(s, frames, logoutDelay).sent == []
    ensures forall r :: r in Run(s, frames, logoutDelay).sent ==> r == LogoutRecord(s.currentUser)
    decreases |frames|
  {
    if frames != [] {
      var f := frames[0];
      var next := Step(s, f.matched, f.faceRects, f.now, logoutDelay).session;
      FacelessRunLogsOutAtMostOnce(next, frames[1..], logoutDelay);
    }
  }

  /** A frame with faces and a match stamps `login_timestamp` with `now` and
      records the match in `last_match`, logged in or not. */
  lemma MatchedFrameRecordsMatch(s: Session, login: string, faceRects: seq<FaceDetection.Region>,
                                 now: real, logoutDelay: int)
    requires faceRects != []
    ensures var o := Step(s, Some(login), faceRects, now, logoutDelay);
      o.session.loginTimestamp == now && o.session.lastMatch == Some(login)
  {
  }

  /** A `login` for a matched user is sent only when that user is not the
      current one and was also the last match with the counter already at 1
      or 2; the session then holds the user with the counter at 2. */
  lemma LoginNeedsDebounce(s: Session, login: string, faceRects: seq<FaceDetection.Region>,
                           now: real, logoutDelay: int)
    requires 0 <= s.sameUserDetectedInRow <= 2 && faceRects != []
    requires Step(s, Some(login), faceRects, now, logoutDelay).sent != []
    ensures s.currentUser != User(login)
    ensures s.lastMatch == Some(login) && 1 <= s.sameUserDetectedInRow
    ensures var o := Step(s, Some(login), faceRects, now, logoutDelay);
      o.sent == [LoginRecord(login)] && o.session.currentUser == User(login) && o.session.sameUserDetectedInRow == 2
  {
  }

  /** While `current_user` already is the matched user, no `login` is sent. */
  lemma NoLoginForCurrentUser(s: Session, login: string, faceRects: seq<FaceDetection.Region>,
                              now: real, logoutDelay: int)
    requires s.currentUser == User(login) && faceRects != []
    ensures Step(s, Some(login), faceRects, now, logoutDelay).sent == []
    ensures Step(s, Some(login), faceRects, now, logoutDelay).session.currentUser == User(login)
  {
  }

  /** The debounce as written: starting from a `last_match` other than `A`,
      the first and second consecutive `A` frames send nothing and the third
      logs `A` in (unless `A` is already the current user). */
  lemma {:induction false} ThirdMatchingFrameLogsIn(s: Session, login: string, frames: seq<Frame>, logoutDelay: int)
    requires s.lastMatch != Some(login) && s.currentUser != User(login)
    requires 0 <= s.sameUserDetectedInRow <= 2
    requires |frames| == 3
    requires forall i :: 0 <= i < 3 ==> frames[i].matched == Some(login) && frames[i].faceRects != []
    ensures Run(s, frames[..1], logoutDelay).sent == []
    ensures Run(s, frames[..2], logoutDelay).sent == []
    ensures Run(s, frames, logoutDelay).sent == [LoginRecord(login)]
    ensures Run(s, frames, logoutDelay).session.currentUser == User(login)
  {
    var o1 := Step(s, frames[0].matched, frames[0].faceRects, frames[0].now, logoutDelay);
    assert o1.sent == [] && o1.session.sameUserDetectedInRow == 0;
    var o2 := Step(o1.session, frames[1].matched, frames[1].faceRects, frames[1].now, logoutDelay);
    assert o2.sent == [] && o2.session.sameUserDetectedInRow == 1;
    var o3 := Step(o2.session, frames[2].matched, frames[2].faceRects, frames[2].now, logoutDelay);
    assert o3.sent == [LoginRecord(login)] && o3.session.currentUser == User(login);
    assert frames[..1][1..] == [];
    assert frames[..2][1..][1..] == [];
    assert frames[1..][1..][1..] == [];
    assert Run(o1.session, frames[..1][1..], logoutDelay) == Outcome(o1.session, []);
    assert Run(o2.session, frames[..2][1..][1..], logoutDelay) == Outcome(o2.session, []);
    assert Run(o3.session, frames[1..][1..][1..], logoutDelay) == Outcome(o3.session, []);
    assert Run(o2.session, frames[1..][1..], logoutDelay) == Outcome(o3.session, o3.sent);
    assert Run(o1.session, frames[1..], logoutDelay) == Outcome(o3.session, o3.sent);
  }

  /** A frame with faces but no match switches to the unknown identity, once
      five seconds have passed since the last match, stamping the time and
      sending one unknown `login`; it leaves `last_match` and the counter alone. */
  lemma UnmatchedFrame(s: Session, faceRects: seq<FaceDetection.Region>, now: real, logoutDelay: int)
    requires faceRects != []
    ensures var o := Step(s, None, faceRects, now, logoutDelay);
      && o.session.lastMatch == s.lastMatch
      && o.session.sameUserDetectedInRow == s.sameUserDetectedInRow
      && (s.currentUser != Unknown && now - s.loginTimestamp > UnknownDelay ==>
            o.sent == [UnknownLoginRecord()] && o.session.currentUser == Unknown && o.session.loginTimestamp == now)
      && (!(s.currentUser != Unknown && now - s.loginTimestamp > UnknownDelay) ==> o == Outcome(s, []))
  {
  }

  /** However many frames with faces but no match arrive, the switch to the
      unknown identity is announced at most once. */
  lemma {:induction false} UnmatchedRunAnnouncesUnknownAtMostOnce(s: Session, frames: seq<Frame>, logoutDelay: int)
    requires forall i :: 0 <= i < |frames| ==> frames[i].faceRects != [] && frames[i].matched == None
    ensures |Run(s, frames, logoutDelay).sent| <= 1
    ensures s.currentUser == Unknown ==> Run(s, frames, logoutDelay).sent == []
    ensures forall r :: r in Run(s, frames, logoutDelay).sent ==> r == UnknownLoginRecord()
    decreases |frames|
  {
    if frames != [] {
      var f := frames[0];
      var next := Step(s, f.matched, f.faceRects, f.now, logoutDelay).session;
      UnmatchedRunAnnouncesUnknownAtMostOnce(next, frames[1..], logoutDelay);
    }
  }

  /** `login_timestamp` as the source initialises it: `time.gmtime(0)`, a
      struct, until the first match stores a number of seconds. */
  datatype TimestampAsWritten = StructTime | Seconds(t: real)

  /** The guard of the unknown branch as written, `current_user != 0 and
      time.time() - login_timestamp > 5`: `None` is the `TypeError` raised
      when the subtraction meets the struct. */
  function UnknownGuardAsWritten(currentUser: Identity, loginTimestamp: TimestampAsWritten, now: real): Option<bool>
  {
    if currentUser == Unknown then Some(false)
    else match loginTimestamp
      case StructTime => None
      case Seconds(t) => Some(now - t > UnknownDelay)
  }

  /** As written, a fresh matcher whose first frame with faces matches nobody
      raises `TypeError` instead of switching to the unknown identity. */
  lemma FreshUnmatchedFaceRaisesAsWritten(now: real)
    ensures UnknownGuardAsWritten(NoUser, StructTime, now) == None
  {
  }

  /** With `login_timestamp` starting at 0, the same frame (more than five
      seconds after the epoch) announces the unknown identity. */
  lemma FreshUnmatchedFaceAnnouncesUnknown(faceRects: seq<FaceDetection.Region>, now: real, logoutDelay: int)
    requires faceRects != [] && now > UnknownDelay
    ensures Step(InitialSession(), None, faceRects, now, logoutDelay)
      == Outcome(Session(Unknown, now, None, 0), [UnknownLoginRecord()])
  {
  }
}
