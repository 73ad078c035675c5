/**
 * `src/components/plan/TaskDetailsForm.tsx`: the side form that edits the
 * selected plan task. Selecting a task resets the form from it, with the
 * assignees shown as one string joined by ", ". Saving checks the schema,
 * splits that string back on commas and copies five fields onto the task.
 */
module TaskDetailsForm {
  import opened Wrappers
  import opened Types
  import opened Seqs
  import opened Strings

  /** The form's values. The two selects can only hold their enum members. */
  datatype FormData = FormData(
    description: string,
    status: Status,
    priority: Priority,
    assignees: string,
    estHours: int)

  /** `defaultValues`. */
  const Defaults: FormData := FormData("", Backlog, Medium, "", 0)

  /**
   * `taskSchema`: a description and an assignee string of at least one
   * character each, and a number of hours that is not negative.
   */
  predicate Valid(f: FormData) {
    |f.description| >= 1 && |f.assignees| >= 1 && f.estHours >= 0
  }

  /** The untouched form does not pass the schema. */
  lemma DefaultsInvalid()
    ensures !Valid(Defaults)
  {
  }

  /**
   * The `useEffect` reset: the selected task's fields, its assignees joined
   * by ", ", or the defaults when no task is selected.
   */
  function ResetFor(task: Option<PlanTask>): (r: FormData)
    ensures task.None? ==> r == Defaults
    ensures task.Some? ==> r.description == task.value.description && r.status == task.value.status
                           && r.priority == task.value.priority && r.estHours == task.value.estHours
    ensures task.Some? ==> r.assignees == Join(task.value.assignees, ", ")
  {
    match task
    case None => Defaults
    case Some(t) => FormData(t.description, t.status, t.priority, Join(t.assignees, ", "), t.estHours)
  }

  /** `.map(s => s.trim())`. */
  function TrimAll(ps: seq<string>): (r: seq<string>)
    ensures |r| == |ps|
    ensures forall i :: 0 <= i < |ps| ==> r[i] == Trim(ps[i])
  {
    seq(|ps|, i requires 0 <= i < |ps| => Trim(ps[i]))
  }

  /** `Boolean` as a filter on strings: only the empty string is falsy. */
  predicate Nonblank(s: string) {
    s != ""
  }

  /** Trimmed comma-free pieces have no comma, and trimming leaves each piece trimmed. */
  lemma TrimAllClean(ps: seq<string>)
    requires forall i :: 0 <= i < |ps| ==> ',' !in ps[i]
    ensures forall i :: 0 <= i < |ps| ==> ',' !in TrimAll(ps)[i] && Trimmed(TrimAll(ps)[i])
  {
    forall i | 0 <= i < |ps|
      ensures ',' !in TrimAll(ps)[i]
    {
      if ',' in TrimAll(ps)[i] {
        TrimWithin(ps[i], ',');
      }
    }
  }

  /**
   * The assignee list saved from the form: split on commas, trim each
   * piece, drop the empty ones. No name is empty, padded or holds a comma.
   */
  function ParseAssignees(s: string): (r: seq<string>)
    ensures forall i :: 0 <= i < |r| ==> r[i] != "" && Trimmed(r[i]) && ',' !in r[i]
    ensures ',' !in s ==> |r| <= 1
  {
    var pieces := Split(s, ',');
    TrimAllClean(pieces);
    if ',' !in s then SplitNoSeparator(s, ','); Filter(TrimAll(pieces), Nonblank)
    else Filter(TrimAll(pieces), Nonblank)
  }

  /** A name the form can carry through a reset and a save unchanged. */
  predicate PlainName(n: string) {
    n != "" && Trimmed(n) && ',' !in n
  }

  /** Each name after the first, with the space the ", " separator leaves in front of it. */
  function Spaced(ns: seq<string>): (r: seq<string>)
    ensures |r| == |ns|
    ensures forall i :: 0 <= i < |ns| ==> r[i] == " " + ns[i]
  {
    seq(|ns|, i requires 0 <= i < |ns| => " " + ns[i])
  }

  /** Putting `w` in front of a join is putting it in front of the first piece. */
  lemma JoinPrefix(w: string, p: string, rest: seq<string>, sep: string)
    ensures w + Join([p] + rest, sep) == Join([w + p] + rest, sep)
  {
    assert ([p] + rest)[0] == p && ([p] + rest)[1..] == rest;
    assert ([w + p] + rest)[0] == w + p && ([w + p] + rest)[1..] == rest;
    if rest != [] {
      assert w + (p + sep + Join(rest, sep)) == (w + p) + sep + Join(rest, sep);
    }
  }

  /** Joining with ", " is joining with "," the names spaced after the first. */
  lemma {:induction false} JoinCommaSpace(names: seq<string>)
    requires |names| >= 1
    ensures Join(names, ", ") == Join([names[0]] + Spaced(names[1..]), [','])
    decreases |names|
  {
    if |names| > 1 {
      var rest := names[1..];
      JoinCommaSpace(rest);
      JoinPrefix(" ", rest[0], Spaced(rest[1..]), [',']);
      assert Spaced(rest) == [" " + rest[0]] + Spaced(rest[1..]);
      var ps := [names[0]] + Spaced(rest);
      assert ps[0] == names[0] && ps[1..] == Spaced(rest);
      assert Join(ps, [',']) == names[0] + [','] + Join(Spaced(rest), [',']);
      assert Join(names, ", ") == names[0] + ", " + Join(rest, ", ");
      assert names[0] + ", " + Join(rest, ", ") == names[0] + [','] + (" " + Join(rest, ", "));
    }
  }

  /** The empty string parses to no names. */
  lemma ParseEmpty()
    ensures ParseAssignees("") == []
  {
    assert Split("", ',') == [""];
    assert Trim("") == "";
    assert TrimAll([""]) == [""];
    assert Filter([""], Nonblank) == Filter([""][1..], Nonblank);
  }

  /** The ","-pieces of a ", "-join trim back to the names. */
  lemma TrimPieces(names: seq<string>, ps: seq<string>)
    requires |names| >= 1 && ps == [names[0]] + Spaced(names[1..])
    requires forall i :: 0 <= i < |names| ==> PlainName(names[i])
    ensures forall i :: 0 <= i < |ps| ==> ',' !in ps[i]
    ensures TrimAll(ps) == names
  {
    forall i | 0 <= i < |ps|
      ensures ',' !in ps[i] && Trim(ps[i]) == names[i]
    {
      if i == 0 {
        TrimOfTrimmed(names[0]);
      } else {
        assert ps[i] == " " + names[i];
        TrimLeadingSpaces(" ", names[i]);
      }
    }
  }

  /** Parsing the joined form of plain names gives the names back, in order. */
  lemma {:induction false} ParseJoin(names: seq<string>)
    requires forall i :: 0 <= i < |names| ==> PlainName(names[i])
    ensures ParseAssignees(Join(names, ", ")) == names
  {
    if names == [] {
      ParseEmpty();
    } else {
      var ps := [names[0]] + Spaced(names[1..]);
      JoinCommaSpace(names);
      TrimPieces(names, ps);
      SplitJoin(ps, ',');
      FilterAll(names, Nonblank);
    }
  }

  /**
   * `onSubmit`: nothing without a selected task; otherwise the task with its
   * description, status, priority, assignees and hours taken from the form
   * and every other field as it was.
   */
  function OnSubmit(task: Option<PlanTask>, data: FormData): (r: Option<PlanTask>)
    ensures r.None? <==> task.None?
    ensures r.Some? ==> r.value.description == data.description && r.value.status == data.status
                        && r.value.priority == data.priority && r.value.estHours == data.estHours
                        && r.value.assignees == ParseAssignees(data.assignees)
    ensures r.Some? ==> r.value.(description := task.value.description, status := task.value.status,
                                 priority := task.value.priority, assignees := task.value.assignees,
                                 estHours := task.value.estHours) == task.value
  {
    match task
    case None => None
    case Some(t) =>
      Some(t.(description := data.description, status := data.status, priority := data.priority,
              assignees := ParseAssignees(data.assignees), estHours := data.estHours))
  }

  /** Saving a freshly reset form gives the task back, when its names are plain. */
  lemma SaveUnchangedForm(t: PlanTask)
    requires forall i :: 0 <= i < |t.assignees| ==> PlainName(t.assignees[i])
    ensures OnSubmit(Some(t), ResetFor(Some(t))) == Some(t)
  {
    ParseJoin(t.assignees);
  }

  /** After one save, resetting from the saved task and saving again changes nothing. */
  lemma SaveIsStable(t: PlanTask, data: FormData)
    ensures var saved := OnSubmit(Some(t), data).value;
            OnSubmit(Some(saved), ResetFor(Some(saved))) == Some(saved)
  {
    var saved := OnSubmit(Some(t), data).value;
    SaveUnchangedForm(saved);
  }

  /** An assignee string of a comma between spaces passes the schema yet saves no assignee. */
  lemma BlankAssigneesPass(description: string)
    requires description != ""
    ensures Valid(FormData(description, Backlog, Medium, " , ", 0))
    ensures ParseAssignees(" , ") == []
  {
    assert " , " == " " + [','] + " ";
    SplitAtSeparator(" ", " ", ',');
    SplitNoSeparator(" ", ',');
    assert Split(" , ", ',') == [" ", " "];
    assert LeadingSpaces(" ") == 1;
    assert Trim(" ") == "";
    assert TrimAll([" ", " "]) == ["", ""];
    assert Filter(["", ""], Nonblank) == Filter(["", ""][1..], Nonblank);
    assert ["", ""][1..] == [""];
    assert Filter([""], Nonblank) == Filter([""][1..], Nonblank);
  }
}
