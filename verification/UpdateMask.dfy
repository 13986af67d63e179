/** Field masks: from the paths of an update request to the change applied to a task. */
module UpdateMask {
  import opened Wrappers
  import GoTime
  import opened TaskDomain
  import Color

  /** A path of the mask; `OtherPath` stands for any other text. */
  datatype FieldPath = StatusPath | TitlePath | DescriptionPath | ScheduledAtPath | ColorPath | OtherPath(text: string)

  datatype ProtoStatus = ProtoUnspecified | ProtoActive | ProtoCompleted | ProtoUnrecognized(number: int)

  /** The update as it arrives at the service. */
  datatype ProtoUpdate = ProtoUpdate(
    mask: seq<FieldPath>,
    status: ProtoStatus,
    title: string,
    description: string,
    scheduledAt: Option<GoTime.Instant>,
    color: string)

  /** The update as the use case receives it: a field is present only if the service set it. */
  datatype UpdateRequest = UpdateRequest(
    mask: seq<FieldPath>,
    status: Option<Status>,
    title: Option<string>,
    description: Option<string>,
    scheduledAt: Option<GoTime.Instant>,
    clearScheduledAt: bool,
    color: Option<string>)

  datatype ServiceError = StatusRequired | StatusUnsupported

  function StatusFromProto(s: ProtoStatus): Result<Status, ServiceError> {
    match s
    case ProtoActive => Ok(Active)
    case ProtoCompleted => Ok(Completed)
    case ProtoUnspecified => Err(StatusRequired)
    case ProtoUnrecognized(_) => Err(StatusUnsupported)
  }

  /** What the service hands to the use case: exactly the masked fields, whatever their order. */
  function ServiceRequest(p: ProtoUpdate): Result<UpdateRequest, ServiceError> {
    if StatusPath in p.mask && StatusFromProto(p.status).Err? then Err(StatusFromProto(p.status).error)
    else Ok(UpdateRequest(
      p.mask,
      if StatusPath in p.mask then Some(StatusFromProto(p.status).value) else None,
      if TitlePath in p.mask then Some(p.title) else None,
      if DescriptionPath in p.mask then Some(p.description) else None,
      if ScheduledAtPath in p.mask then p.scheduledAt else None,
      ScheduledAtPath in p.mask && p.scheduledAt.None?,
      if ColorPath in p.mask then Some(p.color) else None))
  }

  /** The mask loop of the service's `UpdateTask`. */
  method BuildServiceRequest(p: ProtoUpdate) returns (r: Result<UpdateRequest, ServiceError>)
    ensures r == ServiceRequest(p)
  {
    var req := UpdateRequest(p.mask, None, None, None, None, false, None);
    for i := 0 to |p.mask|
      invariant !(StatusPath in p.mask[..i] && StatusFromProto(p.status).Err?)
      invariant Ok(req.(mask := p.mask[..i])) == ServiceRequest(p.(mask := p.mask[..i]))
      invariant req.mask == p.mask
    {
      assert p.mask[..i + 1] == p.mask[..i] + [p.mask[i]];
      match p.mask[i] {
        case StatusPath =>
          var status := StatusFromProto(p.status);
          if status.Err? {
            return Err(status.error);
          }
          req := req.(status := Some(status.value));
        case TitlePath =>
          req := req.(title := Some(p.title));
        case DescriptionPath =>
          req := req.(description := Some(p.description));
        case ScheduledAtPath =>
          if p.scheduledAt.None? {
            req := req.(clearScheduledAt := true);
          } else {
            req := req.(scheduledAt := p.scheduledAt);
          }
        case ColorPath =>
          req := req.(color := Some(p.color));
        case OtherPath(_) =>
      }
    }
    assert p.mask[..|p.mask|] == p.mask;
    return Ok(req);
  }

  /** One turn of the loop of `buildUpdateInput`. */
  function TakeField(req: UpdateRequest, input: TaskUpdate, path: FieldPath): Result<TaskUpdate, TaskError> {
    match path
    case StatusPath => Ok(if req.status.Some? then input.(status := req.status) else input)
    case TitlePath => Ok(if req.title.Some? then input.(title := req.title) else input)
    case DescriptionPath => Ok(if req.description.Some? then input.(description := req.description) else input)
    case ScheduledAtPath =>
      Ok(if req.clearScheduledAt then input.(clearScheduledAt := true)
         else if req.scheduledAt.Some? then input.(scheduledAt := req.scheduledAt)
         else input)
    case ColorPath =>
      if req.color.None? then Ok(input)
      else (match Color.NewColor(req.color.value)
            case Ok(c) => Ok(input.(color := Some(c)))
            case Err(e) => Err(BadColor(e)))
    case OtherPath(_) => Err(InvalidUpdateField)
  }

  /** The input built from the first `n` paths, in order. */
  function InputAfter(req: UpdateRequest, n: nat): Result<TaskUpdate, TaskError>
    requires n <= |req.mask|
  {
    if n == 0 then Ok(NO_UPDATE)
    else
      var before :- InputAfter(req, n - 1);
      TakeField(req, before, req.mask[n - 1])
  }

  function UpdateInput(req: UpdateRequest): Result<TaskUpdate, TaskError> {
    InputAfter(req, |req.mask|)
  }

  /** `buildUpdateInput`. */
  method BuildUpdateInput(req: UpdateRequest) returns (r: Result<TaskUpdate, TaskError>)
    ensures r == UpdateInput(req)
  {
    var input := NO_UPDATE;
    for i := 0 to |req.mask|
      invariant InputAfter(req, i) == Ok(input)
    {
      var path := req.mask[i];
      var next := TakeField(req, input, path);
      assert InputAfter(req, i + 1) == next;
      if next.Err? {
        InputStaysFailed(req, i + 1, |req.mask|);
        return next;
      }
      input := next.value;
    }
    return Ok(input);
  }

  lemma {:induction false} InputStaysFailed(req: UpdateRequest, i: nat, n: nat)
    requires i <= n <= |req.mask| && InputAfter(req, i).Err?
    ensures InputAfter(req, n) == InputAfter(req, i)
  {
    if i < n {
      InputStaysFailed(req, i, n - 1);
    }
  }

  /** The colour a request asks for is absent or parses. */
  predicate ColorParses(req: UpdateRequest) {
    req.color.Some? ==> Color.NewColor(req.color.value).Ok?
  }

  /** The change a set of paths selects from a request. */
  function Selected(req: UpdateRequest, paths: set<FieldPath>): TaskUpdate {
    TaskUpdate(
      if StatusPath in paths then req.status else None,
      if TitlePath in paths then req.title else None,
      if DescriptionPath in paths then req.description else None,
      if ScheduledAtPath in paths && !req.clearScheduledAt then req.scheduledAt else None,
      ScheduledAtPath in paths && req.clearScheduledAt,
      if ColorPath in paths && req.color.Some? && Color.NewColor(req.color.value).Ok?
      then Some(Color.NewColor(req.color.value).value) else None)
  }

  function PathSet(mask: seq<FieldPath>): set<FieldPath> {
    set p | p in mask
  }

  /** Acceptance and the resulting change depend only on the set of paths: every path must be known,
      a masked colour must parse, and then each masked field is taken from the request. */
  lemma {:induction false} InputMeaning(req: UpdateRequest, n: nat)
    requires n <= |req.mask|
    ensures var paths := PathSet(req.mask[..n]);
      && (InputAfter(req, n).Ok? <==>
            (forall p | p in paths :: !p.OtherPath?) && (ColorPath in paths ==> ColorParses(req)))
      && (InputAfter(req, n).Ok? ==> InputAfter(req, n).value == Selected(req, paths))
  {
    if n > 0 {
      InputMeaning(req, n - 1);
      var paths, path := PathSet(req.mask[..n - 1]), req.mask[n - 1];
      assert PathSet(req.mask[..n]) == paths + {path};
      if InputAfter(req, n - 1).Ok? {
        SelectOneMore(req, paths, path);
      }
      hide Selected, TakeField, ColorParses;
    }
  }

  lemma SelectOneMore(req: UpdateRequest, paths: set<FieldPath>, path: FieldPath)
    requires ColorPath in paths ==> ColorParses(req)
    ensures var r := TakeField(req, Selected(req, paths), path);
      && (r.Ok? <==> !path.OtherPath? && (path.ColorPath? ==> ColorParses(req)))
      && (r.Ok? ==> r.value == Selected(req, paths + {path}))
  {
    hide Color.NewColor;
  }

  /** Two masks with the same paths, in any order and with any repetition, are both refused
      or both give the same change, from the service request on. */
  lemma MaskOrderIrrelevant(p: ProtoUpdate, q: ProtoUpdate)
    requires q == p.(mask := q.mask) && PathSet(p.mask) == PathSet(q.mask)
    ensures ServiceRequest(p).Ok? <==> ServiceRequest(q).Ok?
    ensures ServiceRequest(p).Ok? ==>
      var a, b := UpdateInput(ServiceRequest(p).value), UpdateInput(ServiceRequest(q).value);
      (a.Ok? <==> b.Ok?) && (a.Ok? ==> a == b)
  {
    assert forall x :: x in p.mask <==> x in PathSet(p.mask);
    assert forall x :: x in q.mask <==> x in PathSet(q.mask);
    if ServiceRequest(p).Ok? {
      var a, b := ServiceRequest(p).value, ServiceRequest(q).value;
      InputMeaning(a, |a.mask|);
      InputMeaning(b, |b.mask|);
      assert a.mask[..|a.mask|] == a.mask && b.mask[..|b.mask|] == b.mask;
    }
  }

  /** `validateScheduledAtConstraint`. */
  function ScheduledAtConstraint(t: Task, u: TaskUpdate): Option<TaskError> {
    if u.scheduledAt.None? && !u.clearScheduledAt then None
    else if t.taskType != Scheduled then Some(ScheduledAtNotAllowed)
    else None
  }

  /** From a service request to the task it would write, given the row it read. */
  function Updated(p: ProtoUpdate, t: Task): Option<Task> {
    match ServiceRequest(p)
    case Err(_) => None
    case Ok(req) =>
      match UpdateInput(req)
      case Err(_) => None
      case Ok(u) =>
        if p.mask == [] || ScheduledAtConstraint(t, u).Some? || ApplyUpdate(t, u).Err? then None
        else Some(ApplyUpdate(t, u).value)
  }

  /** Field by field: what an accepted update does to a good task. Masked fields take the request's
      values, the others and the id, owner, type and creation time stay, and the target follows a
      scheduled time. A mask with `scheduled_at` but no value is always refused. */
  lemma MaskSemantics(p: ProtoUpdate, t: Task)
    requires Good(t) && Updated(p, t).Some?
    ensures var u := Updated(p, t).value;
      && Good(u)
      && u.id == t.id && u.userId == t.userId && u.taskType == t.taskType && u.createdAt == t.createdAt
      && u.title == (if TitlePath in p.mask then p.title else t.title)
      && u.description == (if DescriptionPath in p.mask then p.description else t.description)
      && u.status == (if StatusPath in p.mask then (if p.status.ProtoActive? then Active else Completed) else t.status)
      && Color.NewColor(if ColorPath in p.mask then p.color else t.color.hex) == Ok(u.color)
      && (ScheduledAtPath in p.mask ==>
            && t.taskType == Scheduled && p.scheduledAt.Some?
            && u.scheduledAt == Some(GoTime.TruncateMicro(p.scheduledAt.value)) && u.targetAt == u.scheduledAt.value)
      && (ScheduledAtPath !in p.mask ==> u.scheduledAt == t.scheduledAt && u.targetAt == t.targetAt)
  {
    var req := ServiceRequest(p).value;
    var u := UpdateInput(req).value;
    ServiceSelects(p);
    hide UpdateInput, ServiceRequest, Color.NewColor, Color.IsNormal, Color.Validate;
    if u.color.Some? {
      Color.NewColorNormalizes(p.color, u.color.value);
    }
    Color.NewColorNormalizes("", t.color);
    ApplyUpdateGood(t, u);
    if ScheduledAtPath !in p.mask {
      KeptTimes(t, u);
    }
  }

  /** What an accepted service request asks of a task, path by path. */
  lemma ServiceSelects(p: ProtoUpdate)
    requires ServiceRequest(p).Ok? && UpdateInput(ServiceRequest(p).value).Ok?
    ensures var u := UpdateInput(ServiceRequest(p).value).value;
      && u.title == (if TitlePath in p.mask then Some(p.title) else None)
      && u.description == (if DescriptionPath in p.mask then Some(p.description) else None)
      && u.status == (if StatusPath in p.mask then Some(if p.status.ProtoActive? then Active else Completed) else None)
      && (if ColorPath in p.mask then u.color.Some? && Color.NewColor(p.color) == Ok(u.color.value)
          else u.color == None)
      && u.scheduledAt == (if ScheduledAtPath in p.mask then p.scheduledAt else None)
      && u.clearScheduledAt == (ScheduledAtPath in p.mask && p.scheduledAt.None?)
  {
    var req := ServiceRequest(p).value;
    InputMeaning(req, |req.mask|);
    assert req.mask[..|req.mask|] == req.mask;
    assert forall x :: x in p.mask <==> x in PathSet(p.mask);
    hide UpdateInput, Color.NewColor;
  }

  /** Exactly the updates that reach the store: the mask is not empty and names only known fields, a
      masked status and colour are valid, the new title is short enough, and a masked scheduled time
      is given, belongs to a scheduled task and does not precede its creation. */
  lemma UpdateAccepted(p: ProtoUpdate, t: Task)
    requires Good(t)
    ensures Updated(p, t).Some? <==>
      && p.mask != []
      && (forall x | x in p.mask :: !x.OtherPath?)
      && (StatusPath in p.mask ==> p.status.ProtoActive? || p.status.ProtoCompleted?)
      && (ColorPath in p.mask ==> Color.NewColor(p.color).Ok?)
      && (TitlePath in p.mask ==> |p.title| <= 500)
      && (ScheduledAtPath in p.mask ==>
            t.taskType == Scheduled && p.scheduledAt.Some? && t.createdAt <= GoTime.TruncateMicro(p.scheduledAt.value))
  {
    if ServiceRequest(p).Ok? {
      var req := ServiceRequest(p).value;
      InputMeaning(req, |req.mask|);
      assert req.mask[..|req.mask|] == req.mask;
      assert forall x :: x in p.mask <==> x in PathSet(p.mask);
      if UpdateInput(req).Ok? && p.mask != [] {
        var u := UpdateInput(req).value;
        assert u == Selected(req, PathSet(p.mask));
        if u.color.Some? {
          Color.NewColorNormalizes(p.color, u.color.value);
          Color.NewColorNormalizes("", u.color.value);
        }
        MaskNotEmpty(p, u);
        if ScheduledAtConstraint(t, u).None? {
          ApplyUpdateAccepts(t, u);
        }
      }
    }
  }

  lemma MaskNotEmpty(p: ProtoUpdate, u: TaskUpdate)
    requires p.mask != [] && ServiceRequest(p).Ok?
    requires UpdateInput(ServiceRequest(p).value) == Ok(u)
    requires u == Selected(ServiceRequest(p).value, PathSet(p.mask))
    ensures HasUpdates(u)
  {
    var path := p.mask[0];
    assert path in PathSet(p.mask);
    var req := ServiceRequest(p).value;
    InputMeaning(req, |req.mask|);
    assert req.mask[..|req.mask|] == req.mask;
  }

  lemma ApplyUpdateAccepts(t: Task, u: TaskUpdate)
    requires Good(t) && HasUpdates(u)
    requires u.color.Some? ==> Color.Validate(u.color.value).None?
    requires u.scheduledAt.None? || !u.clearScheduledAt
    requires ScheduledAtConstraint(t, u).None?
    ensures ApplyUpdate(t, u).Ok? <==>
      && (u.title.Some? ==> |u.title.value| <= MAX_TITLE)
      && !u.clearScheduledAt
      && (u.scheduledAt.Some? ==> t.createdAt <= GoTime.TruncateMicro(u.scheduledAt.value))
  {
    Color.NewColorNormalizes("", t.color);
    hide GoTime.TruncateMicro, Color.IsNormal, Color.Validate;
  }

  /** `ApplyUpdate` without a scheduled time leaves the times as they are. */
  lemma KeptTimes(t: Task, u: TaskUpdate)
    requires Good(t) && ApplyUpdate(t, u).Ok? && u.scheduledAt.None? && !u.clearScheduledAt
    ensures ApplyUpdate(t, u).value.scheduledAt == t.scheduledAt && ApplyUpdate(t, u).value.targetAt == t.targetAt
  {
    hide GoTime.TruncateMicro, Color.IsNormal, Color.Validate;
  }

  /** What is wrong with one path of a mask, if the paths before it are fine. */
  function PathFault(p: ProtoUpdate, path: FieldPath): Option<TaskError> {
    if path.OtherPath? then Some(InvalidUpdateField)
    else if path == ColorPath && Color.NewColor(p.color).Err? then Some(BadColor(Color.NewColor(p.color).error))
    else None
  }

  /** A refused input is refused for the first faulty path of the mask. */
  lemma {:induction false} InputFault(p: ProtoUpdate, req: UpdateRequest, n: nat)
    requires n <= |req.mask| && ServiceRequest(p) == Ok(req)
    ensures InputAfter(req, n).Err? ==>
      exists i :: 0 <= i < n && PathFault(p, p.mask[i]) == Some(InputAfter(req, n).error) && FineBefore(p, i)
    ensures InputAfter(req, n).Ok? ==> FineBefore(p, n)
  {
    hide Color.NewColor;
    if n > 0 {
      InputFault(p, req, n - 1);
      var path := p.mask[n - 1];
      assert path in p.mask;
      if InputAfter(req, n - 1).Ok? {
        assert InputAfter(req, n) == TakeField(req, InputAfter(req, n - 1).value, path);
        assert InputAfter(req, n).Err? ==> PathFault(p, path) == Some(InputAfter(req, n).error);
      } else {
        assert InputAfter(req, n) == InputAfter(req, n - 1);
      }
    }
  }

  predicate FineBefore(p: ProtoUpdate, n: nat)
    requires n <= |p.mask|
  {
    forall i | 0 <= i < n :: PathFault(p, p.mask[i]).None?
  }

  /** What is wrong with an update of a task, once its mask and colour are fine; the first fault first. */
  function ApplyFault(p: ProtoUpdate, t: Task): Option<TaskError> {
    if ScheduledAtPath in p.mask && t.taskType != Scheduled then Some(ScheduledAtNotAllowed)
    else if TitlePath in p.mask && |p.title| > 500 then Some(TitleTooLong)
    else if ScheduledAtPath in p.mask && p.scheduledAt.None? then Some(ScheduledAtRequired)
    else if ScheduledAtPath in p.mask && p.scheduledAt.value / 1000 < t.createdAt / 1000 then
      Some(ScheduledAtBeforeCreatedAt)
    else None
  }

  lemma AppliesExactly(p: ProtoUpdate, t: Task)
    requires p.mask != [] && ServiceRequest(p).Ok? && UpdateInput(ServiceRequest(p).value).Ok?
    ensures var u := UpdateInput(ServiceRequest(p).value).value;
      WellFormed(t) ==>
        match ApplyFault(p, t)
        case Some(e) => (if ScheduledAtConstraint(t, u).Some? then ScheduledAtConstraint(t, u).value == e
                         else ApplyUpdate(t, u) == Err(e))
        case None => ScheduledAtConstraint(t, u).None? && ApplyUpdate(t, u).Ok?
  {
    var req := ServiceRequest(p).value;
    var u := UpdateInput(req).value;
    InputMeaning(req, |req.mask|);
    assert req.mask[..|req.mask|] == req.mask;
    assert u == Selected(req, PathSet(p.mask));
    MaskNotEmpty(p, u);
    ServiceSelects(p);
    if u.color.Some? {
      Color.NewColorNormalizes(p.color, u.color.value);
      Color.NewColorNormalizes("", u.color.value);
    }
    hide ServiceRequest, UpdateInput, Selected, HasUpdates, Color.NewColor;
    if WellFormed(t) {
      ChangeFault(p, t, u);
    }
  }

  lemma ChangeFault(p: ProtoUpdate, t: Task, u: TaskUpdate)
    requires WellFormed(t) && HasUpdates(u) && (u.color.Some? ==> Color.IsNormal(u.color.value))
    requires u.title == (if TitlePath in p.mask then Some(p.title) else None)
    requires u.scheduledAt == (if ScheduledAtPath in p.mask then p.scheduledAt else None)
    requires u.clearScheduledAt == (ScheduledAtPath in p.mask && p.scheduledAt.None?)
    ensures
      match ApplyFault(p, t)
      case Some(e) => (if ScheduledAtConstraint(t, u).Some? then ScheduledAtConstraint(t, u).value == e
                         else ApplyUpdate(t, u) == Err(e))
      case None => ScheduledAtConstraint(t, u).None? && ApplyUpdate(t, u).Ok?
  {
    var color := Or(u.color, t.color);
    var scheduled := if u.clearScheduledAt then None else if u.scheduledAt.Some? then u.scheduledAt else t.scheduledAt;
    var target := if t.taskType == Scheduled && scheduled.Some? then scheduled.value else t.targetAt;
    Color.NewColorNormalizes("", color);
    WellFormedMeaning(t);
    hide WellFormed, HasUpdates;
    NewTaskExactly(t.id, t.userId, Or(u.title, t.title), t.taskType, Or(u.status, t.status),
                   Or(u.description, t.description), scheduled, t.createdAt, target, color);
    hide NewTask, Color.NewColor;
  }
}
