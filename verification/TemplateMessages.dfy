/** Expanding a message row (openjiuwen/agent_teams/message_template.py): the template's placeholders are
    answered from the send-time parameters and from the current task and member rows, each through an
    explicit whitelist of fields. */
module TemplateMessages {
  import opened Template
  import opened Text
  import opened Wrappers

  // ---------------------------------------------------------------- rows and their whitelists

  datatype TaskRow = TaskRow(
    taskId: string, title: Option<string>, content: Option<string>, status: string, assignee: Option<string>,
    reviewers: seq<string>, reviewRound: int, maxReviewRounds: Option<int>, otherColumns: map<string, string>)

  datatype MemberRow = MemberRow(
    memberName: string, displayName: Option<string>, desc: Option<string>, otherColumns: map<string, string>)

  const TASK_FIELDS: set<string> :=
    {"task_id", "title", "content", "status", "assignee", "reviewer", "review_round", "max_review_rounds"}

  const MEMBER_FIELDS: set<string> := {"member_name", "display_name", "desc"}

  function OrEmpty(s: Option<string>): string
  {
    if s.Some? then s.value else ""
  }

  /** `", ".join(names)`. */
  function Joined(names: seq<string>): string
  {
    if names == [] then "" else if |names| == 1 then names[0] else names[0] + ", " + Joined(names[1..])
  }

  /** Names joined are the names with commas between them. */
  lemma {:induction false} JoinedMeans(a: seq<string>, b: seq<string>)
    ensures Joined([]) == "" && (|a| == 1 ==> Joined(a) == a[0])
    ensures a != [] && b != [] ==> Joined(a + b) == Joined(a) + (", " + Joined(b))
  {
    if a != [] && b != [] {
      assert (a + b)[1..] == a[1..] + b && (a + b)[0] == a[0];
      if |a| > 1 {
        JoinedMeans(a[1..], b);
        Around(a[0], Joined(a[1..]), Joined(b));
      } else {
        assert a[1..] + b == b;
      }
    }
  }

  lemma Around(x: string, y: string, z: string)
    ensures x + ", " + (y + (", " + z)) == x + ", " + y + (", " + z)
  {
  }

  function ReadTask(row: TaskRow, field: string): string
  {
    if field == "task_id" then row.taskId
    else if field == "title" then OrEmpty(row.title)
    else if field == "content" then OrEmpty(row.content)
    else if field == "status" then row.status
    else if field == "assignee" then OrEmpty(row.assignee)
    else if field == "reviewer" then Joined(row.reviewers)
    else if field == "review_round" then IntText(row.reviewRound)
    else if row.maxReviewRounds.Some? then IntText(row.maxReviewRounds.value)
    else ""
  }

  function ReadMember(row: MemberRow, field: string): string
  {
    if field == "member_name" then row.memberName
    else if field == "display_name" then OrEmpty(row.displayName)
    else OrEmpty(row.desc)
  }

  function TaskFields(row: TaskRow): map<string, string>
  {
    map field | field in TASK_FIELDS :: ReadTask(row, field)
  }

  function MemberFields(row: MemberRow): map<string, string>
  {
    map field | field in MEMBER_FIELDS :: ReadMember(row, field)
  }

  /** What two task rows must share to read the same. The rounds are numbers: `str` tells them apart. */
  predicate SameTask(a: TaskRow, b: TaskRow)
  {
    && a.taskId == b.taskId && OrEmpty(a.title) == OrEmpty(b.title) && OrEmpty(a.content) == OrEmpty(b.content)
    && a.status == b.status && OrEmpty(a.assignee) == OrEmpty(b.assignee) && Joined(a.reviewers) == Joined(b.reviewers)
    && a.reviewRound == b.reviewRound && a.maxReviewRounds == b.maxReviewRounds
  }

  lemma RoundsDiffer(a: TaskRow, b: TaskRow)
    requires ReadTask(a, "review_round") == ReadTask(b, "review_round")
    requires ReadTask(a, "max_review_rounds") == ReadTask(b, "max_review_rounds")
    ensures a.reviewRound == b.reviewRound && a.maxReviewRounds == b.maxReviewRounds
  {
    IntTextInjective(a.reviewRound, b.reviewRound);
    if a.maxReviewRounds.Some? && b.maxReviewRounds.Some? {
      IntTextInjective(a.maxReviewRounds.value, b.maxReviewRounds.value);
    }
  }

  lemma TaskFieldsAgree(a: TaskRow, b: TaskRow)
    ensures TaskFields(a) == TaskFields(b) <==> SameTask(a, b)
  {
    var fa, fb := TaskFields(a), TaskFields(b);
    if fa == fb {
      assert forall field :: field in TASK_FIELDS ==> fa[field] == fb[field];
      RoundsDiffer(a, b);
      assert ReadTask(a, "task_id") == ReadTask(b, "task_id") && ReadTask(a, "title") == ReadTask(b, "title");
      assert ReadTask(a, "content") == ReadTask(b, "content") && ReadTask(a, "status") == ReadTask(b, "status");
      assert ReadTask(a, "assignee") == ReadTask(b, "assignee") && ReadTask(a, "reviewer") == ReadTask(b, "reviewer");
    }
  }

  lemma MemberFieldsAgree(a: MemberRow, b: MemberRow)
    ensures MemberFields(a) == MemberFields(b) <==>
            a.memberName == b.memberName && OrEmpty(a.displayName) == OrEmpty(b.displayName)
                && OrEmpty(a.desc) == OrEmpty(b.desc)
  {
    var fa, fb := MemberFields(a), MemberFields(b);
    if fa == fb {
      assert forall field :: field in MEMBER_FIELDS ==> fa[field] == fb[field];
      assert ReadMember(a, "member_name") == ReadMember(b, "member_name");
      assert ReadMember(a, "display_name") == ReadMember(b, "display_name")
          && ReadMember(a, "desc") == ReadMember(b, "desc");
    }
  }

  // ---------------------------------------------------------------- meta

  /** A template descriptor. */
  datatype Meta = Meta(template: Option<string>, refs: Option<map<string, string>>, params: Option<map<string, string>>)

  /** The `meta` column: empty, not JSON, JSON that is not an object, or an object. */
  datatype Raw = Absent | Malformed | NotAnObject | Object(meta: Meta)

  function ParseMeta(raw: Raw): Option<Meta>
  {
    if raw.Object? && OrEmpty(raw.meta.template) != "" then Some(raw.meta) else None
  }

  function OrNoEntries(m: Option<map<string, string>>): map<string, string>
  {
    if m.Some? then m.value else map[]
  }

  /** `build_meta`: empty bindings are left out. */
  method BuildMeta(template: string, refs: Option<map<string, string>>, params: Option<map<string, string>>)
    returns (meta: Meta)
    ensures ParseMeta(Object(meta)) == if template == "" then None else Some(meta)
    ensures OrEmpty(meta.template) == template
    ensures OrNoEntries(meta.refs) == OrNoEntries(refs) && OrNoEntries(meta.params) == OrNoEntries(params)
    ensures meta.refs != Some(map[]) && meta.params != Some(map[])
  {
    meta := Meta(Some(template), None, None);
    if refs.Some? && refs.value != map[] {
      meta := meta.(refs := refs);
    }
    if params.Some? && params.value != map[] {
      meta := meta.(params := params);
    }
  }

  function RefOf(meta: Meta, name: string): string
  {
    var refs := OrNoEntries(meta.refs);
    if name in refs then refs[name] else ""
  }

  function FallbackLine(meta: Meta): string
  {
    var template := if OrEmpty(meta.template) == "" then "?" else OrEmpty(meta.template);
    if RefOf(meta, "task") != "" then
      "[" + template + "] task_id=" + RefOf(meta, "task")
          + " \U{2014} details unavailable, call view_task for the task."
    else
      "[" + template + "] \U{2014} details unavailable."
  }

  // ---------------------------------------------------------------- expansion

  /** A row lookup may find the row, find none, or raise. */
  datatype Fetched<T> = Row(row: T) | Gone | Raised

  /** The `param` namespace, then `task` and `member` when they are referenced. */
  function Namespaces(meta: Meta, tasks: string -> Fetched<TaskRow>,
                      members: string -> Fetched<MemberRow>): Option<Values>
  {
    var task, member := RefOf(meta, "task"), RefOf(meta, "member");
    if (task != "" && !tasks(task).Row?) || (member != "" && !members(member).Row?) then None
    else
      var params := map["param" := OrNoEntries(meta.params)];
      var withTask := if task == "" then params else params["task" := TaskFields(tasks(task).row)];
      Some(if member == "" then withTask else withTask["member" := MemberFields(members(member).row)])
  }

  method ResolveNamespaces(meta: Meta, tasks: string -> Fetched<TaskRow>, members: string -> Fetched<MemberRow>)
    returns (r: Option<Values>)
    ensures r == Namespaces(meta, tasks, members)
  {
    var values: Values := map["param" := OrNoEntries(meta.params)];
    var task := RefOf(meta, "task");
    if task != "" {
      var row := tasks(task);
      if !row.Row? {
        return None;
      }
      values := values["task" := TaskFields(row.row)];
    }
    var member := RefOf(meta, "member");
    if member != "" {
      var row := members(member);
      if !row.Row? {
        return None;
      }
      values := values["member" := MemberFields(row.row)];
    }
    return Some(values);
  }

  datatype Expanded = Expanded(body: string, isTemplate: bool)

  datatype Message = Message(content: string, meta: Raw)

  /** `expand_message`, in one language; the loader finds a template's text or raises. */
  function ExpandMessage(msg: Message, tasks: string -> Fetched<TaskRow>, members: string -> Fetched<MemberRow>,
                         loader: string -> Option<string>): Expanded
  {
    match ParseMeta(msg.meta)
    case None => Expanded(msg.content, false)
    case Some(meta) =>
      var values, template := Namespaces(meta, tasks, members), loader(OrEmpty(meta.template));
      if values.Some? && template.Some? then Expanded(Substitute(template.value, values.value), true)
      else Expanded(FallbackLine(meta), true)
  }

  ghost predicate SameTasks(a: Fetched<TaskRow>, b: Fetched<TaskRow>)
  {
    (a.Row? <==> b.Row?) && (a.Row? ==> SameTask(a.row, b.row))
  }

  ghost predicate SameMembers(a: Fetched<MemberRow>, b: Fetched<MemberRow>)
  {
    (a.Row? <==> b.Row?) && (a.Row? ==> MemberFields(a.row) == MemberFields(b.row))
  }

  /** The template that asks for one field. */
  function Ask(ns: string, field: string): string
  {
    "{{" + (ns + ("." + (field + "}}")))
  }

  lemma AskAnswered(ns: string, field: string, values: Values)
    requires ns != "" && field != "" && Between(IsNameChar, ns, 0, |ns|) && Between(IsNameChar, field, 0, |field|)
    ensures Substitute(Ask(ns, field), values) == ValueOf(values, ns, field)
  {
    var t, b := Ask(ns, field), 2 + |ns|;
    var c := b + 1 + |field|;
    assert t[2..b] == ns && t[b + 1..c] == field;
    forall k | 2 <= k < b ensures IsNameChar(t[k]) {
      assert t[k] == t[2..b][k - 2];
    }
    forall k | b + 1 <= k < c ensures IsNameChar(t[k]) {
      assert t[k] == t[b + 1..c][k - b - 1];
    }
    assert Shaped(IsSpace, IsNameChar, t, 2, b, c, c);
    SlotFirst(t, ns, field, "", values);
    assert t + "" == t && Substitute("", values) == "";
    assert ValueOf(values, ns, field) + "" == ValueOf(values, ns, field);
  }

  lemma FieldNames(field: string)
    requires field in TASK_FIELDS || field in MEMBER_FIELDS
    ensures field != "" && Between(IsNameChar, field, 0, |field|)
  {
  }

  lemma TaskNamespace()
    ensures "task" != "" && Between(IsNameChar, "task", 0, |"task"|)
  {
  }

  lemma AskTellsApart(ns: string, field: string, v: Values, w: Values)
    requires ns != "" && field != "" && Between(IsNameChar, ns, 0, |ns|) && Between(IsNameChar, field, 0, |field|)
    requires ValueOf(v, ns, field) != ValueOf(w, ns, field)
    ensures exists t :: Substitute(t, v) != Substitute(t, w)
  {
    AskAnswered(ns, field, v);
    AskAnswered(ns, field, w);
  }

  function TaskOnly(row: TaskRow): Values
  {
    map["task" := TaskFields(row)]
  }

  /** Two task rows give the same document for every template exactly when they agree on the
      whitelisted fields: no other column is ever shown, and each whitelisted one can be. */
  lemma ShowsExactlyTheWhitelist(a: TaskRow, b: TaskRow)
    ensures SameTask(a, b) <==> forall t :: Substitute(t, TaskOnly(a)) == Substitute(t, TaskOnly(b))
  {
    TaskFieldsAgree(a, b);
    if TaskFields(a) != TaskFields(b) {
      var field :| field in TASK_FIELDS && TaskFields(a)[field] != TaskFields(b)[field];
      FieldNames(field);
      TaskNamespace();
      AskTellsApart("task", field, TaskOnly(a), TaskOnly(b));
    }
  }

  /** A template that asks for one field of a task shows that column, and a mark for any other name. */
  lemma FieldShown(row: TaskRow, field: string)
    requires field != "" && Between(IsNameChar, field, 0, |field|)
    ensures var shown := Substitute(Ask("task", field), TaskOnly(row));
      && (field == "task_id" ==> shown == row.taskId)
      && (field == "title" ==> shown == OrEmpty(row.title))
      && (field == "content" ==> shown == OrEmpty(row.content))
      && (field == "status" ==> shown == row.status)
      && (field == "assignee" ==> shown == OrEmpty(row.assignee))
      && (field == "reviewer" ==> shown == Joined(row.reviewers))
      && (field == "review_round" ==> shown == IntText(row.reviewRound))
      && (field == "max_review_rounds" ==>
            shown == if row.maxReviewRounds.Some? then IntText(row.maxReviewRounds.value) else "")
      && (field !in TASK_FIELDS ==> shown == ValueOf(map[], "task", field))
  {
    TaskNamespace();
    AskAnswered("task", field, TaskOnly(row));
  }

  lemma MemberShown(row: MemberRow, field: string)
    requires field != "" && Between(IsNameChar, field, 0, |field|)
    ensures var shown := Substitute(Ask("member", field), map["member" := MemberFields(row)]);
      && (field == "member_name" ==> shown == row.memberName)
      && (field == "display_name" ==> shown == OrEmpty(row.displayName))
      && (field == "desc" ==> shown == OrEmpty(row.desc))
      && (field !in MEMBER_FIELDS ==> shown == ValueOf(map[], "member", field))
  {
    AskAnswered("member", field, map["member" := MemberFields(row)]);
  }

  /** A message expands the same way whenever its rows agree on their whitelisted fields. */
  lemma ExpansionDependsOnWhitelist(msg: Message, tasks: string -> Fetched<TaskRow>, tasks2: string -> Fetched<TaskRow>,
                                    members: string -> Fetched<MemberRow>, members2: string -> Fetched<MemberRow>,
                                    loader: string -> Option<string>)
    requires forall id :: SameTasks(tasks(id), tasks2(id))
    requires forall name :: SameMembers(members(name), members2(name))
    ensures ExpandMessage(msg, tasks, members, loader) == ExpandMessage(msg, tasks2, members2, loader)
  {
    var meta := ParseMeta(msg.meta);
    if meta.Some? {
      var task, member := RefOf(meta.value, "task"), RefOf(meta.value, "member");
      assert SameTasks(tasks(task), tasks2(task)) && SameMembers(members(member), members2(member));
      if tasks(task).Row? {
        TaskFieldsAgree(tasks(task).row, tasks2(task).row);
      }
    }
  }

  // ---------------------------------------------------------------- what is delivered

  ghost predicate TaskShows(row: TaskRow, field: string, shown: string)
  {
    && (field == "task_id" ==> shown == row.taskId)
    && (field == "title" ==> shown == if row.title.Some? then row.title.value else "")
    && (field == "content" ==> shown == if row.content.Some? then row.content.value else "")
    && (field == "status" ==> shown == row.status)
    && (field == "assignee" ==> shown == if row.assignee.Some? then row.assignee.value else "")
    && (field == "reviewer" ==> shown == Joined(row.reviewers))
    && (field == "review_round" ==> shown == IntText(row.reviewRound))
    && (field == "max_review_rounds" ==>
          shown == if row.maxReviewRounds.Some? then IntText(row.maxReviewRounds.value) else "")
    && (field in {"task_id", "title", "content", "status", "assignee", "reviewer", "review_round", "max_review_rounds"}
        || shown == "<missing:task." + field + ">")
  }

  ghost predicate MemberShows(row: MemberRow, field: string, shown: string)
  {
    && (field == "member_name" ==> shown == row.memberName)
    && (field == "display_name" ==> shown == if row.displayName.Some? then row.displayName.value else "")
    && (field == "desc" ==> shown == if row.desc.Some? then row.desc.value else "")
    && (field in {"member_name", "display_name", "desc"} || shown == "<missing:member." + field + ">")
  }

  /** What stands for one token of the template: itself, or what its slot asks for, be it a parameter or a
      column of a referenced row; and for anything else a mark. */
  ghost predicate Shows(tok: Token, piece: string, params: map<string, string>, task: Option<TaskRow>,
                        member: Option<MemberRow>)
  {
    match tok
    case Literal(c) => piece == [c]
    case Slot(_, ns, field) =>
      if ns == "param" && field in params then piece == params[field]
      else if ns == "task" && task.Some? then TaskShows(task.value, field, piece)
      else if ns == "member" && member.Some? then MemberShows(member.value, field, piece)
      else piece == "<missing:" + ns + "." + field + ">"
  }

  function Pasted(pieces: seq<string>): string
  {
    if pieces == [] then "" else pieces[0] + Pasted(pieces[1..])
  }

  ghost predicate ShowsAll(ts: seq<Token>, pieces: seq<string>, params: map<string, string>, task: Option<TaskRow>,
                           member: Option<MemberRow>)
  {
    |pieces| == |ts| && forall k :: 0 <= k < |ts| ==> Shows(ts[k], pieces[k], params, task, member)
  }

  /** The id a message binds to a name, if it does. */
  ghost predicate Binds(refs: Option<map<string, string>>, name: string, id: string)
  {
    id == if refs.Some? && name in refs.value then refs.value[name] else ""
  }

  /** A row is there exactly when an id is bound, and is what the lookup finds for it. */
  ghost predicate IsFound<T>(id: string, lookup: string -> Fetched<T>, row: Option<T>)
  {
    if id == "" then row == None else row.Some? && lookup(id) == Row(row.value)
  }

  function ValuesOf(params: map<string, string>, task: Option<TaskRow>, member: Option<MemberRow>): Values
  {
    var values: Values := map["param" := params];
    var withTask := if task.Some? then values["task" := TaskFields(task.value)] else values;
    if member.Some? then withTask["member" := MemberFields(member.value)] else withTask
  }

  lemma TaskFieldShown(row: TaskRow, field: string, values: Values)
    requires "task" in values && values["task"] == TaskFields(row)
    ensures TaskShows(row, field, ValueOf(values, "task", field))
  {
    if field in TASK_FIELDS {
      assert ValueOf(values, "task", field) == ReadTask(row, field);
      TaskColumnShown(row, field);
    } else {
      TaskMissing(row, field, ValueOf(values, "task", field));
    }
  }

  lemma TaskColumnShown(row: TaskRow, field: string)
    requires field in TASK_FIELDS
    ensures TaskShows(row, field, ReadTask(row, field))
  {
  }

  lemma TaskMissing(row: TaskRow, field: string, shown: string)
    requires field !in TASK_FIELDS && shown == "<missing:" + "task" + "." + field + ">"
    ensures TaskShows(row, field, shown)
  {
  }

  lemma MemberFieldShown(row: MemberRow, field: string, values: Values)
    requires "member" in values && values["member"] == MemberFields(row)
    ensures MemberShows(row, field, ValueOf(values, "member", field))
  {
  }

  lemma SlotShown(ns: string, field: string, params: map<string, string>, task: Option<TaskRow>,
                  member: Option<MemberRow>)
    ensures Shows(Slot("", ns, field), ValueOf(ValuesOf(params, task, member), ns, field), params, task, member)
  {
    var values := ValuesOf(params, task, member);
    if ns == "task" && task.Some? {
      TaskFieldShown(task.value, field, values);
    } else if ns == "member" && member.Some? {
      MemberFieldShown(member.value, field, values);
    }
  }

  lemma {:induction false} RenderShows(ts: seq<Token>, params: map<string, string>, task: Option<TaskRow>,
                                       member: Option<MemberRow>, values: Values) returns (pieces: seq<string>)
    requires values == ValuesOf(params, task, member)
    ensures ShowsAll(ts, pieces, params, task, member) && Render(ts, values) == Pasted(pieces)
  {
    if ts == [] {
      pieces := [];
    } else {
      var rest := RenderShows(ts[1..], params, task, member, values);
      var piece := match ts[0] case Literal(c) => [c] case Slot(_, ns, field) => ValueOf(values, ns, field);
      if ts[0].Slot? {
        SlotShown(ts[0].ns, ts[0].field, params, task, member);
      }
      pieces := [piece] + rest;
      assert pieces[1..] == rest;
    }
  }

  /** A message whose rows and template are there is delivered as its template, however that is read, with
      what each slot asks for in its place: the parameter, the column of the referenced row, or a mark. */
  lemma ExpansionShows(content: string, meta: Meta, tasks: string -> Fetched<TaskRow>,
                       members: string -> Fetched<MemberRow>, loader: string -> Option<string>, template: string,
                       ts: seq<Token>, taskId: string, task: Option<TaskRow>, name: string, member: Option<MemberRow>)
    returns (pieces: seq<string>)
    requires meta.template.Some? && meta.template.value != "" && loader(meta.template.value) == Some(template)
    requires Binds(meta.refs, "task", taskId) && IsFound(taskId, tasks, task)
    requires Binds(meta.refs, "member", name) && IsFound(name, members, member)
    requires IsReading(template, ts)
    ensures ShowsAll(ts, pieces, if meta.params.Some? then meta.params.value else map[], task, member)
    ensures ExpandMessage(Message(content, Object(meta)), tasks, members, loader) == Expanded(Pasted(pieces), true)
  {
    var params := OrNoEntries(meta.params);
    var values := ValuesOf(params, task, member);
    SubstituteReads(template, ts, values);
    pieces := RenderShows(ts, params, task, member, values);
    assert Namespaces(meta, tasks, members) == Some(values);
  }

  /** The line that stands in for a document names its template, if there is a name, and its task, if it is
      bound. */
  lemma FallbackMeans(meta: Meta, taskId: string)
    requires Binds(meta.refs, "task", taskId)
    ensures var key := if meta.template.Some? && meta.template.value != "" then meta.template.value else "?";
      FallbackLine(meta)
        == if taskId == "" then "[" + key + "] \U{2014} details unavailable."
           else "[" + key + "] task_id=" + taskId + " \U{2014} details unavailable, call view_task for the task."
  {
  }

  /** A referenced row or a template that is not there leaves a line that names the template and, when one is
      referenced, the task. */
  lemma ExpansionFails(content: string, meta: Meta, tasks: string -> Fetched<TaskRow>,
                       members: string -> Fetched<MemberRow>, loader: string -> Option<string>, key: string,
                       taskId: string, name: string)
    requires meta.template == Some(key) && key != ""
    requires Binds(meta.refs, "task", taskId) && Binds(meta.refs, "member", name)
    requires loader(key).None? || (taskId != "" && !tasks(taskId).Row?) || (name != "" && !members(name).Row?)
    ensures ExpandMessage(Message(content, Object(meta)), tasks, members, loader) == Expanded(
              if taskId == "" then "[" + key + "] \U{2014} details unavailable."
              else "[" + key + "] task_id=" + taskId + " \U{2014} details unavailable, call view_task for the task.",
              true)
  {
  }

  /** Anything without a template key is an ordinary message, delivered as it was sent. */
  lemma OrdinaryDelivered(msg: Message, tasks: string -> Fetched<TaskRow>, members: string -> Fetched<MemberRow>,
                          loader: string -> Option<string>)
    requires msg.meta.Object? ==> msg.meta.meta.template == None || msg.meta.meta.template == Some("")
    ensures ExpandMessage(msg, tasks, members, loader) == Expanded(msg.content, false)
  {
  }
}
