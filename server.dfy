/** The request validators of the HTTP server: required fields present
    and not empty, and every named course known to the catalogue; and the
    order the path endpoint applies them in. */
module Server {
  import opened Wrappers
  import opened CourseGraph

  /** A JSON value of a request body, as far as the validators tell values
      apart: a list of names, a string, a number, or anything else (an
      object, a boolean, null). */
  datatype Value = Items(names: seq<string>) | Text(text: string) | Number(n: int) | Other

  /** ValidationError (HTTP 400) with the field it names. */
  datatype ValidationError = MissingField(field: string) | EmptyField(field: string)

  /** A field passes when present and, for a list or a string, not empty;
      a value of any other type passes whatever it holds. */
  predicate FieldOk(data: map<string, Value>, field: string)
  {
    field in data && data[field] != Items([]) && data[field] != Text("")
  }

  /** validate_input: the fields are checked in order and the first one that
      fails is reported, as missing or as empty. */
  function ValidateInput(data: map<string, Value>, required: seq<string>): (r: Option<ValidationError>)
    ensures r.None? <==> forall i :: 0 <= i < |required| ==> FieldOk(data, required[i])
    ensures r.Some? ==>
      exists i :: 0 <= i < |required| && required[i] == r.value.field &&
        !FieldOk(data, required[i]) && (r.value.MissingField? <==> required[i] !in data) &&
        forall j :: 0 <= j < i ==> FieldOk(data, required[j])
  {
    if required == [] then None
    else
      var f := required[0];
      if f !in data then Some(MissingField(f))
      else if data[f] == Items([]) || data[f] == Text("") then Some(EmptyField(f))
      else
        var r := ValidateInput(data, required[1..]);
        assert forall i :: 1 <= i < |required| ==> required[i] == required[1..][i - 1];
        if r.Some? then
          var i :| 0 <= i < |required[1..]| && required[1..][i] == r.value.field &&
            !FieldOk(data, required[1..][i]) && (r.value.MissingField? <==> required[1..][i] !in data) &&
            forall j :: 0 <= j < i ==> FieldOk(data, required[1..][j]);
          assert required[i + 1] == r.value.field;
          r
        else r
  }

  /** Zero, an empty object and the other non-list, non-string values pass
      the emptiness test. */
  lemma OtherValuesPass(data: map<string, Value>, field: string)
    requires field in data && (data[field].Number? || data[field].Other?)
    ensures ValidateInput(data, [field]).None?
  {
  }

  /** validate_courses_exist: the first non-empty name that is not a key of
      the prerequisite table (CourseNotFoundError, HTTP 404); empty names
      are skipped. */
  function ValidateCoursesExist(courses: seq<string>, prerequisites: Table<seq<Course>>): (r: Option<string>)
    ensures r.None? <==> forall i :: 0 <= i < |courses| ==> courses[i] == "" || courses[i] in Keys(prerequisites)
    ensures r.Some? ==> r.value != "" && r.value !in Keys(prerequisites)
    ensures r.Some? ==>
      exists i :: 0 <= i < |courses| && courses[i] == r.value &&
        forall j :: 0 <= j < i ==> courses[j] == "" || courses[j] in Keys(prerequisites)
  {
    if courses == [] then None
    else if courses[0] != "" && courses[0] !in Keys(prerequisites) then Some(courses[0])
    else
      var r := ValidateCoursesExist(courses[1..], prerequisites);
      assert forall i :: 1 <= i < |courses| ==> courses[i] == courses[1..][i - 1];
      if r.Some? then
        var i :| 0 <= i < |courses[1..]| && courses[1..][i] == r.value &&
          forall j :: 0 <= j < i ==> courses[1..][j] == "" || courses[1..][j] in Keys(prerequisites);
        assert courses[i + 1] == r.value;
        r
      else r
  }

  /** The fields the path endpoint requires. */
  const PathFields: seq<string> := ["start_courses", "goal_course"]

  /** How the path endpoint's validation ends. */
  datatype Checked =
    | Accepted(startCourses: seq<string>, goalCourse: string)
    | BadRequest(error: ValidationError)
    | NotFound(course: string)
    | OutsideModel

  /** The HTTP status the error handlers give each outcome. */
  function StatusCode(c: Checked): (code: int)
    requires !c.OutsideModel?
    ensures c.Accepted? <==> code == 200
    ensures c.BadRequest? <==> code == 400
    ensures c.NotFound? <==> code == 404
  {
    match c
    case Accepted(_, _) => 200
    case BadRequest(_) => 400
    case NotFound(_) => 404
  }

  /** The validation steps of the path endpoint: the fields first, then the
      start courses followed by the goal against the catalogue. A body whose
      start_courses is not a list or whose goal_course is not a string is
      OutsideModel. */
  function CheckPathRequest(data: map<string, Value>, prerequisites: Table<seq<Course>>): (r: Checked)
    ensures r.BadRequest? <==> ValidateInput(data, PathFields).Some?
    ensures r.BadRequest? ==> r.error == ValidateInput(data, PathFields).value
    ensures r.Accepted? ==>
      "start_courses" in data && data["start_courses"] == Items(r.startCourses) &&
      "goal_course" in data && data["goal_course"] == Text(r.goalCourse) &&
      r.startCourses != [] && r.goalCourse != "" && r.goalCourse in Keys(prerequisites) &&
      (forall c :: c in r.startCourses && c != "" ==> c in Keys(prerequisites))
    ensures r.NotFound? ==>
      "start_courses" in data && data["start_courses"].Items? &&
      "goal_course" in data && data["goal_course"].Text? &&
      r.course != "" && r.course !in Keys(prerequisites) &&
      (r.course in data["start_courses"].names || r.course == data["goal_course"].text)
  {
    match ValidateInput(data, PathFields)
    case Some(e) => BadRequest(e)
    case None =>
      assert FieldOk(data, PathFields[0]) && FieldOk(data, PathFields[1]);
      var start := data["start_courses"];
      var goal := data["goal_course"];
      if !start.Items? || !goal.Text? then OutsideModel
      else
        var courses := start.names + [goal.text];
        match ValidateCoursesExist(courses, prerequisites)
        case Some(c) => NotFound(c)
        case None =>
          assert courses[|courses| - 1] == goal.text;
          assert forall c :: c in start.names ==> c in courses;
          Accepted(start.names, goal.text)
  }

  /** An empty start list is a field error (400) even when the other
      courses named are unknown. */
  lemma EmptyStartIsBadRequest(data: map<string, Value>, prerequisites: Table<seq<Course>>)
    requires "start_courses" in data && data["start_courses"] == Items([])
    ensures CheckPathRequest(data, prerequisites) == BadRequest(EmptyField("start_courses"))
  {
  }

  /** With both fields in order, a named course missing from the catalogue
      gives 404 naming the first such course. */
  lemma UnknownCourseIsNotFound(data: map<string, Value>, prerequisites: Table<seq<Course>>, starts: seq<string>, goal: string)
    requires "start_courses" in data && "goal_course" in data
    requires data["start_courses"] == Items(starts) && data["goal_course"] == Text(goal) && starts != [] && goal != ""
    requires exists c :: c in starts + [goal] && c != "" && c !in Keys(prerequisites)
    ensures CheckPathRequest(data, prerequisites) == NotFound(ValidateCoursesExist(starts + [goal], prerequisites).value)
  {
    assert FieldOk(data, PathFields[0]) && FieldOk(data, PathFields[1]);
    var c :| c in starts + [goal] && c != "" && c !in Keys(prerequisites);
    var i :| 0 <= i < |starts + [goal]| && (starts + [goal])[i] == c;
  }
}
