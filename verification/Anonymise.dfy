/**
 Rewriting the name-like fields of a fixture by rule.

 Ids are compared and never inspected, so numbers stand for them; `rest` stands for every
 field the script does not touch.

 The rewrite is a function of the rules and the fixture: area and agreement names by table,
 task names generated from area, duty and ordinal, contacts renamed in the order of their
 first real row, and roster and availability rows named after their contact.

 Main results: when a second run changes nothing (`IdempotentIff`), when generated names tell
 tasks apart (`NamesDifferIff`), and what a refusal names (`RefusalNamesTheFirstMissing`).
 */
module Anonymise {
  import opened Basics

  datatype AreaRow = AreaRow(id: nat, name: string, code: string, rest: nat)
  datatype AgreementRow = AgreementRow(id: nat, name: string, code: string, rest: nat)
  datatype FunctionRow = FunctionRow(id: nat, name: string)

  datatype TaskRow = TaskRow(id: nat, area: nat, function_: nat, name: string, rest: nat)
  datatype MemberRow = MemberRow(contact: nat, agreement: nat, agreementName: string, name: string, sapid: string, rest: nat)
  datatype WindowRow = WindowRow(contact: nat, name: string, rest: nat)

  datatype Payload = Payload(
    areas: seq<AreaRow>,
    agreements: seq<AgreementRow>,
    functions: seq<FunctionRow>,
    tasks: seq<TaskRow>,
    members: seq<MemberRow>,
    rosters: seq<WindowRow>,
    availability: seq<WindowRow>)

  datatype Rules = Rules(
    areas: map<nat, string>,
    labels: map<string, (string, string)>,
    agreements: map<nat, (string, string)>)

  const SYNTHETIC_MEMBERS := [
    "Mika Tane", "Arjun Patel", "Lena Ortiz", "Owen Hale", "Priya Nair",
    "Nina Brooks", "Theo Marsh-Walker", "Felix Van Dijk", "Hana Sato", "Ravi Kumar"]

  datatype RuleError =
    | NoAreaRule(id: nat)
    | NoAgreementRule(id: nat)
    | NoFunction(id: nat)
    | NoLabel(name: string)
    | EmptyAreaName
    | NoMember(id: nat)
    | TooManyMembers

  // ----- applying a rule to every row

  function Each<A, B>(f: A -> Result<B, RuleError>, s: seq<A>): Result<seq<B>, RuleError> {
    if s == [] then Ok([])
    else match Each(f, s[..|s| - 1])
         case Err(e) => Err(e)
         case Ok(out) =>
           match f(s[|s| - 1])
           case Err(e) => Err(e)
           case Ok(b) => Ok(out + [b])
  }

  lemma {:induction false} EachIs<A, B>(f: A -> Result<B, RuleError>, s: seq<A>, t: seq<B>)
    ensures Each(f, s) == Ok(t) <==> |t| == |s| && forall i :: 0 <= i < |s| ==> f(s[i]) == Ok(t[i])
  {
    if s != [] {
      var n := |s| - 1;
      if |t| == |s| {
        EachIs(f, s[..n], t[..n]);
        assert t == t[..n] + [t[n]];
      }
      if Each(f, s[..n]).Ok? {
        EachIs(f, s[..n], Each(f, s[..n]).value);
      }
    }
  }

  // ----- areas, agreements, tasks

  function RenameArea(rules: Rules): AreaRow -> Result<AreaRow, RuleError> {
    (a: AreaRow) =>
      if a.id in rules.areas then Ok(a.(name := rules.areas[a.id], code := rules.areas[a.id])) else Err(NoAreaRule(a.id))
  }

  function RenameAgreement(rules: Rules): AgreementRow -> Result<AgreementRow, RuleError> {
    (a: AgreementRow) =>
      if a.id in rules.agreements
      then Ok(a.(name := rules.agreements[a.id].0, code := rules.agreements[a.id].1)) else Err(NoAgreementRule(a.id))
  }

  function FunctionNames(rows: seq<FunctionRow>): map<nat, string> {
    if rows == [] then map[] else FunctionNames(rows[..|rows| - 1])[rows[|rows| - 1].id := rows[|rows| - 1].name]
  }

  /** Tasks so far in an area of that name. */
  function Ordinal(rules: Rules, tasks: seq<TaskRow>, area: string): nat {
    if tasks == [] then 0
    else
      var t := tasks[|tasks| - 1];
      Ordinal(rules, tasks[..|tasks| - 1], area) + (if t.area in rules.areas && rules.areas[t.area] == area then 1 else 0)
  }

  /** At least two digits. */
  function TwoDigits(n: nat): string {
    if n < 10 then ['0', Digit(n)] else Decimal(n)
  }

  /** A task name up to its ordinal: `{area} {duty} | {activity} {initial}`. */
  function NameHead(area: string, rule: (string, string)): string
    requires area != []
  {
    area + " " + rule.0 + " | " + rule.1 + " " + [area[0]]
  }

  /** The generated name of a task, given the tasks before it. */
  function NameTask(rules: Rules, functions: map<nat, string>, before: seq<TaskRow>, t: TaskRow): Result<string, RuleError> {
    if t.area !in rules.areas then Err(NoAreaRule(t.area))
    else if t.function_ !in functions then Err(NoFunction(t.function_))
    else if functions[t.function_] !in rules.labels then Err(NoLabel(functions[t.function_]))
    else
      var area, rule := rules.areas[t.area], rules.labels[functions[t.function_]];
      if area == [] then Err(EmptyAreaName)
      else Ok(NameHead(area, rule) + TwoDigits(Ordinal(rules, before, area) + 1))
  }

  function TaskNames(rules: Rules, functions: map<nat, string>, tasks: seq<TaskRow>): Result<map<nat, string>, RuleError> {
    if tasks == [] then Ok(map[])
    else match TaskNames(rules, functions, tasks[..|tasks| - 1])
         case Err(e) => Err(e)
         case Ok(names) =>
           match NameTask(rules, functions, tasks[..|tasks| - 1], tasks[|tasks| - 1])
           case Err(e) => Err(e)
           case Ok(name) => Ok(names[tasks[|tasks| - 1].id := name])
  }

  function RenameTasks(tasks: seq<TaskRow>, names: map<nat, string>): (out: seq<TaskRow>)
    ensures |out| == |tasks|
  {
    seq(|tasks|, i requires 0 <= i < |tasks| =>
      if tasks[i].id in names then tasks[i].(name := names[tasks[i].id]) else tasks[i])
  }

  // ----- members

  predicate IsDigit(c: char) {
    '0' <= c <= '9'
  }

  /** Already synthetic: `Test Member` and a number. */
  predicate IsTestMember(name: string) {
    && |name| > 12
    && name[..12] == "Test Member "
    && forall i :: 12 <= i < |name| ==> IsDigit(name[i])
  }

  /** Contacts to rename, in the order of their first row that is not synthetic yet. */
  function RealOrder(rows: seq<MemberRow>): seq<nat> {
    if rows == [] then []
    else
      var order, last := RealOrder(rows[..|rows| - 1]), rows[|rows| - 1];
      if last.contact in order || IsTestMember(last.name) then order else order + [last.contact]
  }

  /** The same contacts in the order of their first row of any kind. */
  function FirstOrder(rows: seq<MemberRow>, among: set<nat>): seq<nat> {
    if rows == [] then []
    else
      var order, last := FirstOrder(rows[..|rows| - 1], among), rows[|rows| - 1];
      if last.contact in order || last.contact !in among then order else order + [last.contact]
  }

  function IndexOf(order: seq<nat>, c: nat): (i: nat)
    requires c in order
    ensures i < |order| && order[i] == c
  {
    if order[|order| - 1] == c then |order| - 1
    else
      assert order == order[..|order| - 1] + [order[|order| - 1]];
      IndexOf(order[..|order| - 1], c)
  }

  /** `998000` and a two-digit number. */
  function Sapid(i: nat): string
    requires i < 10
  {
    "998000" + [Digit((i + 1) / 10), Digit((i + 1) % 10)]
  }

  function RenameMember(order: seq<nat>, row: MemberRow): MemberRow
    requires |order| <= |SYNTHETIC_MEMBERS|
  {
    if row.contact in order
    then row.(name := SYNTHETIC_MEMBERS[IndexOf(order, row.contact)], sapid := Sapid(IndexOf(order, row.contact)))
    else row
  }

  function RenameMembers(order: seq<nat>, rows: seq<MemberRow>): (out: seq<MemberRow>)
    requires |order| <= |SYNTHETIC_MEMBERS|
    ensures |out| == |rows| && forall i :: 0 <= i < |rows| ==> out[i] == RenameMember(order, rows[i])
  {
    seq(|rows|, i requires 0 <= i < |rows| => RenameMember(order, rows[i]))
  }

  function BindAgreement(names: map<nat, string>): MemberRow -> Result<MemberRow, RuleError> {
    (m: MemberRow) =>
      if m.agreement in names then Ok(m.(agreementName := names[m.agreement])) else Err(NoAgreementRule(m.agreement))
  }

  function AgreementNames(rows: seq<AgreementRow>): map<nat, string> {
    if rows == [] then map[] else AgreementNames(rows[..|rows| - 1])[rows[|rows| - 1].id := rows[|rows| - 1].name]
  }

  function MemberNames(rows: seq<MemberRow>): map<nat, string> {
    if rows == [] then map[] else MemberNames(rows[..|rows| - 1])[rows[|rows| - 1].contact := rows[|rows| - 1].name]
  }

  function RenameWindow(names: map<nat, string>): WindowRow -> Result<WindowRow, RuleError> {
    (w: WindowRow) => if w.contact in names then Ok(w.(name := names[w.contact])) else Err(NoMember(w.contact))
  }

  /** Identities, then agreement names and renaming row by row. */
  function Members(agreements: map<nat, string>, rows: seq<MemberRow>): Result<seq<MemberRow>, RuleError> {
    if |RealOrder(rows)| > |SYNTHETIC_MEMBERS| then Err(TooManyMembers)
    else match Each(BindAgreement(agreements), rows)
         case Err(e) => Err(e)
         case Ok(bound) => Ok(RenameMembers(RealOrder(rows), bound))
  }

  /** `anonymise` as a function. */
  function Anonymised(rules: Rules, p: Payload): Result<Payload, RuleError> {
    match Each(RenameArea(rules), p.areas)
    case Err(e) => Err(e)
    case Ok(areas) =>
      match Each(RenameAgreement(rules), p.agreements)
      case Err(e) => Err(e)
      case Ok(agreements) =>
        match TaskNames(rules, FunctionNames(p.functions), p.tasks)
        case Err(e) => Err(e)
        case Ok(names) =>
          match Members(AgreementNames(agreements), p.members)
          case Err(e) => Err(e)
          case Ok(members) =>
            match Each(RenameWindow(MemberNames(members)), p.rosters)
            case Err(e) => Err(e)
            case Ok(rosters) =>
              match Each(RenameWindow(MemberNames(members)), p.availability)
              case Err(e) => Err(e)
              case Ok(availability) =>
                Ok(Payload(areas, agreements, p.functions, RenameTasks(p.tasks, names), members, rosters, availability))
  }

  // ----- the script's loops

  method EachRow<A, B>(f: A -> Result<B, RuleError>, s: seq<A>) returns (r: Result<seq<B>, RuleError>)
    ensures r == Each(f, s)
  {
    var out: seq<B> := [];
    for i := 0 to |s|
      invariant Each(f, s[..i]) == Ok(out)
    {
      assert s[..i + 1][..i] == s[..i];
      var one := f(s[i]);
      if one.Err? {
        ErrorsStay(f, s, i + 1);
        return Err(one.error);
      }
      out := out + [one.value];
    }
    assert s[..|s|] == s;
    r := Ok(out);
  }

  lemma {:induction false} ErrorsStay<A, B>(f: A -> Result<B, RuleError>, s: seq<A>, k: nat)
    requires k <= |s| && Each(f, s[..k]).Err?
    ensures Each(f, s) == Each(f, s[..k])
  {
    if k < |s| {
      var front := s[..|s| - 1];
      assert front[..k] == s[..k];
      ErrorsStay(f, front, k);
    } else {
      assert s[..k] == s;
    }
  }

  /** Ordinals are counted per area name in one dictionary; names are filed by task id. */
  method BuildTaskNames(rules: Rules, functions: map<nat, string>, tasks: seq<TaskRow>)
    returns (r: Result<map<nat, string>, RuleError>)
    ensures r == TaskNames(rules, functions, tasks)
  {
    var ordinals: map<string, nat> := map[];
    var names: map<nat, string> := map[];
    for i := 0 to |tasks|
      invariant TaskNames(rules, functions, tasks[..i]) == Ok(names)
      invariant forall a :: (if a in ordinals then ordinals[a] else 0) == Ordinal(rules, tasks[..i], a)
    {
      assert tasks[..i + 1][..i] == tasks[..i];
      var t := tasks[i];
      var name := NameTask(rules, functions, tasks[..i], t);
      if name.Err? {
        TaskErrorsStay(rules, functions, tasks, i + 1);
      }
      if t.area !in rules.areas { return Err(NoAreaRule(t.area)); }
      if t.function_ !in functions { return Err(NoFunction(t.function_)); }
      if functions[t.function_] !in rules.labels { return Err(NoLabel(functions[t.function_])); }
      var area, rule := rules.areas[t.area], rules.labels[functions[t.function_]];
      ordinals := ordinals[area := (if area in ordinals then ordinals[area] else 0) + 1];
      if area == [] { return Err(EmptyAreaName); }
      names := names[t.id := NameHead(area, rule) + TwoDigits(ordinals[area])];
    }
    assert tasks[..|tasks|] == tasks;
    r := Ok(names);
  }

  lemma {:induction false} TaskErrorsStay(rules: Rules, functions: map<nat, string>, tasks: seq<TaskRow>, k: nat)
    requires k <= |tasks| && TaskNames(rules, functions, tasks[..k]).Err?
    ensures TaskNames(rules, functions, tasks) == TaskNames(rules, functions, tasks[..k])
  {
    hide NameTask;
    if k < |tasks| {
      assert tasks[..|tasks| - 1][..k] == tasks[..k];
      TaskErrorsStay(rules, functions, tasks[..|tasks| - 1], k);
    } else {
      assert tasks[..k] == tasks;
    }
  }

  method MemberIdentities(rows: seq<MemberRow>) returns (r: Result<seq<nat>, RuleError>)
    ensures r == if |RealOrder(rows)| > |SYNTHETIC_MEMBERS| then Err(TooManyMembers) else Ok(RealOrder(rows))
  {
    hide IsTestMember;
    var order: seq<nat> := [];
    for i := 0 to |rows|
      invariant order == RealOrder(rows[..i]) && |order| <= |SYNTHETIC_MEMBERS|
    {
      assert rows[..i + 1][..i] == rows[..i];
      if rows[i].contact !in order && !IsTestMember(rows[i].name) {
        if |order| == |SYNTHETIC_MEMBERS| {
          OrderGrows(rows, i + 1);
          return Err(TooManyMembers);
        }
        order := order + [rows[i].contact];
      }
    }
    assert rows[..|rows|] == rows;
    r := Ok(order);
  }

  lemma {:induction false} OrderGrows(rows: seq<MemberRow>, k: nat)
    requires k <= |rows|
    ensures |RealOrder(rows[..k])| <= |RealOrder(rows)|
  {
    hide IsTestMember;
    if k < |rows| {
      OrderGrows(rows[..|rows| - 1], k);
      assert rows[..|rows| - 1][..k] == rows[..k];
    } else {
      assert rows[..k] == rows;
    }
  }

  /** A fixture whose rows are rewritten in place. */
  class Fixture {
    var areas: seq<AreaRow>
    var agreements: seq<AgreementRow>
    var functions: seq<FunctionRow>
    var tasks: seq<TaskRow>
    var members: seq<MemberRow>
    var rosters: seq<WindowRow>
    var availability: seq<WindowRow>

    ghost function Contents(): Payload
      reads this
    {
      Payload(areas, agreements, functions, tasks, members, rosters, availability)
    }

    constructor (p: Payload)
      ensures Contents() == p
    {
      areas, agreements, functions, tasks := p.areas, p.agreements, p.functions, p.tasks;
      members, rosters, availability := p.members, p.rosters, p.availability;
    }

    /** Rewrites the fixture, or reports the first missing rule. */
    method Apply(rules: Rules) returns (failure: Option<RuleError>)
      modifies this
      ensures match Anonymised(rules, old(Contents()))
              case Ok(q) => failure == None && Contents() == q
              case Err(e) => failure == Some(e)
    {
      hide Each, TaskNames, RealOrder, FunctionNames, AgreementNames, MemberNames, RenameMembers, RenameTasks;
      var newAreas := EachRow(RenameArea(rules), areas);
      if newAreas.Err? { return Some(newAreas.error); }
      areas := newAreas.value;
      var newAgreements := EachRow(RenameAgreement(rules), agreements);
      if newAgreements.Err? { return Some(newAgreements.error); }
      agreements := newAgreements.value;
      var names := BuildTaskNames(rules, FunctionNames(functions), tasks);
      if names.Err? { return Some(names.error); }
      tasks := RenameTasks(tasks, names.value);
      var order := MemberIdentities(members);
      if order.Err? { return Some(order.error); }
      var bound := EachRow(BindAgreement(AgreementNames(agreements)), members);
      if bound.Err? { return Some(bound.error); }
      members := RenameMembers(order.value, bound.value);
      var newRosters := EachRow(RenameWindow(MemberNames(members)), rosters);
      if newRosters.Err? { return Some(newRosters.error); }
      rosters := newRosters.value;
      var newAvailability := EachRow(RenameWindow(MemberNames(members)), availability);
      if newAvailability.Err? { return Some(newAvailability.error); }
      availability := newAvailability.value;
      failure := None;
    }
  }

  // ----- the synthetic names

  lemma SyntheticMembersAreFresh(i: nat)
    requires i < |SYNTHETIC_MEMBERS|
    ensures !IsTestMember(SYNTHETIC_MEMBERS[i])
    ensures forall j :: 0 <= j < |SYNTHETIC_MEMBERS| && j != i ==> SYNTHETIC_MEMBERS[j] != SYNTHETIC_MEMBERS[i]
  {
    assert Initial(i) == SYNTHETIC_MEMBERS[i][0];
    assert SYNTHETIC_MEMBERS[6][1] == 'h';
    NotATestMember(SYNTHETIC_MEMBERS[i]);
    forall j | 0 <= j < |SYNTHETIC_MEMBERS| && j != i ensures SYNTHETIC_MEMBERS[j] != SYNTHETIC_MEMBERS[i] {
      assert Initial(j) == SYNTHETIC_MEMBERS[j][0];
    }
  }

  lemma NotATestMember(name: string)
    requires |name| > 1 && !(name[0] == 'T' && name[1] == 'e')
    ensures !IsTestMember(name)
  {
    assert |name| > 12 ==> name[..12][0] == name[0] && name[..12][1] == name[1];
    assert "Test Member "[0] == 'T' && "Test Member "[1] == 'e';
  }

  function Initial(i: nat): char
    requires i < 10
  {
    "MALOPNTFHR"[i]
  }

  // ----- orders of contacts

  /** A contact with a row that is not synthetic yet. */
  ghost predicate HasRealRow(rows: seq<MemberRow>, c: nat) {
    exists i :: 0 <= i < |rows| && rows[i].contact == c && !IsTestMember(rows[i].name)
  }

  ghost predicate HasRow(rows: seq<MemberRow>, c: nat) {
    exists i :: 0 <= i < |rows| && rows[i].contact == c
  }

  lemma {:induction false} RealOrderLists(rows: seq<MemberRow>, c: nat)
    ensures NoRepeats(RealOrder(rows))
    ensures c in RealOrder(rows) <==> HasRealRow(rows, c)
  {
    hide IsTestMember;
    if rows != [] {
      var front, last := rows[..|rows| - 1], rows[|rows| - 1];
      RealOrderLists(front, c);
      assert HasRealRow(rows, c) <==> HasRealRow(front, c) || (last.contact == c && !IsTestMember(last.name)) by {
        if HasRealRow(front, c) {
          var i :| 0 <= i < |front| && front[i].contact == c && !IsTestMember(front[i].name);
          assert rows[i] == front[i];
        }
      }
    }
  }

  lemma {:induction false} FirstOrderLists(rows: seq<MemberRow>, among: set<nat>, c: nat)
    ensures NoRepeats(FirstOrder(rows, among))
    ensures c in FirstOrder(rows, among) <==> c in among && HasRow(rows, c)
  {
    if rows != [] {
      var front, last := rows[..|rows| - 1], rows[|rows| - 1];
      FirstOrderLists(front, among, c);
      assert HasRow(rows, c) <==> HasRow(front, c) || last.contact == c by {
        if HasRow(front, c) {
          var i :| 0 <= i < |front| && front[i].contact == c;
          assert rows[i] == front[i];
        }
      }
    }
  }

  lemma {:induction false} SameElementsSameLength(a: seq<nat>, b: seq<nat>)
    requires NoRepeats(a) && NoRepeats(b) && Elements(a) == Elements(b)
    ensures |a| == |b|
  {
    ElementsFit(a);
    ElementsFit(b);
  }

  // ----- a second application

  /** Row by row, `again` keeps the contacts of `rows` and is renamed by `order`. */
  ghost predicate RenamedBy(order: seq<nat>, rows: seq<MemberRow>, again: seq<MemberRow>)
    requires |order| <= |SYNTHETIC_MEMBERS|
  {
    && |again| == |rows|
    && forall i :: 0 <= i < |rows| ==>
         && again[i].contact == rows[i].contact
         && again[i].name == RenameMember(order, rows[i]).name
         && again[i].sapid == RenameMember(order, rows[i]).sapid
  }

  /** After renaming, first real rows are first rows: nothing renamed still looks synthetic. */
  lemma {:induction false} SecondOrderIsFirstOrder(rows: seq<MemberRow>, again: seq<MemberRow>, k: nat)
    requires |RealOrder(rows)| <= |SYNTHETIC_MEMBERS| && RenamedBy(RealOrder(rows), rows, again) && k <= |rows|
    ensures RealOrder(again[..k]) == FirstOrder(rows[..k], Elements(RealOrder(rows)))
  {
    hide IsTestMember;
    if k > 0 {
      var order := RealOrder(rows);
      SecondOrderIsFirstOrder(rows, again, k - 1);
      assert again[..k][..k - 1] == again[..k - 1] && rows[..k][..k - 1] == rows[..k - 1];
      var row := rows[k - 1];
      if row.contact in order {
        SyntheticMembersAreFresh(IndexOf(order, row.contact));
      } else {
        RealOrderLists(rows, row.contact);
        assert IsTestMember(row.name);
      }
    }
  }

  lemma {:induction false} IndexOfIs(order: seq<nat>, i: nat)
    requires NoRepeats(order) && i < |order|
    ensures IndexOf(order, order[i]) == i
  {
  }

  /** Renaming by another listing of the same contacts changes nothing only if it is the same listing. */
  lemma SameNamesSameOrder(rows: seq<MemberRow>, a: seq<nat>, b: seq<nat>)
    requires NoRepeats(a) && NoRepeats(b) && Elements(a) == Elements(b) && |a| <= |SYNTHETIC_MEMBERS|
    requires |b| <= |SYNTHETIC_MEMBERS|
    requires forall c :: c in a ==> HasRow(rows, c)
    requires forall i :: 0 <= i < |rows| ==> RenameMember(b, rows[i]).name == RenameMember(a, rows[i]).name
    ensures a == b
  {
    SameElementsSameLength(a, b);
    forall k | 0 <= k < |a| ensures a[k] == b[k] {
      var c := a[k];
      assert c in Elements(a) && c in Elements(b);
      var i :| 0 <= i < |rows| && rows[i].contact == c;
      IndexOfIs(a, k);
      SyntheticMembersAreFresh(k);
      assert IndexOf(b, c) == k;
    }
  }

  lemma OrdersListTheSameContacts(rows: seq<MemberRow>)
    ensures var a := RealOrder(rows);
            var b := FirstOrder(rows, Elements(a));
            NoRepeats(a) && NoRepeats(b) && Elements(a) == Elements(b) && |a| == |b|
            && forall c :: c in a ==> HasRow(rows, c)
  {
    hide IsTestMember;
    var a := RealOrder(rows);
    var b := FirstOrder(rows, Elements(a));
    RealOrderLists(rows, 0);
    FirstOrderLists(rows, Elements(a), 0);
    forall c ensures c in a <==> c in b ensures c in a ==> HasRow(rows, c) {
      RealOrderLists(rows, c);
      FirstOrderLists(rows, Elements(a), c);
    }
    SameElementsSameLength(a, b);
  }

  /** Members rewritten twice: the second pass uses the order of first rows. */
  lemma MembersTwice(agreements: map<nat, string>, rows: seq<MemberRow>)
    requires Members(agreements, rows).Ok?
    ensures var out := Members(agreements, rows).value;
            Members(agreements, out) == Ok(out) <==>
              RealOrder(rows) == FirstOrder(rows, Elements(RealOrder(rows)))
  {
    hide IsTestMember, Each, RealOrder, FirstOrder;
    var order := RealOrder(rows);
    var out := Members(agreements, rows).value;
    var bound := Each(BindAgreement(agreements), rows).value;
    EachIs(BindAgreement(agreements), rows, bound);
    assert RenamedBy(order, rows, out) by {
      forall i | 0 <= i < |rows| ensures out[i].contact == rows[i].contact
                                       && out[i].name == RenameMember(order, rows[i]).name
                                       && out[i].sapid == RenameMember(order, rows[i]).sapid {
        assert BindAgreement(agreements)(rows[i]) == Ok(bound[i]);
      }
    }
    SecondOrderIsFirstOrder(rows, out, |rows|);
    assert out[..|rows|] == out && rows[..|rows|] == rows;
    var second := FirstOrder(rows, Elements(order));
    OrdersListTheSameContacts(rows);
    forall i | 0 <= i < |rows| ensures BindAgreement(agreements)(out[i]) == Ok(out[i]) {
      assert BindAgreement(agreements)(rows[i]) == Ok(bound[i]);
    }
    EachIs(BindAgreement(agreements), out, out);
    assert Members(agreements, out) == Ok(RenameMembers(second, out));
    RenamedTwice(order, second, rows, bound, out);
  }

  lemma RenamedTwice(order: seq<nat>, second: seq<nat>, rows: seq<MemberRow>, bound: seq<MemberRow>, out: seq<MemberRow>)
    requires NoRepeats(order) && NoRepeats(second) && Elements(order) == Elements(second)
    requires |order| == |second| <= |SYNTHETIC_MEMBERS|
    requires forall c :: c in order ==> HasRow(rows, c)
    requires |bound| == |rows| && forall i :: 0 <= i < |rows| ==> bound[i].contact == rows[i].contact
    requires out == RenameMembers(order, bound)
    ensures RenameMembers(second, out) == out <==> order == second
  {
    forall c ensures c in order <==> c in second {
      assert c in Elements(order) <==> c in Elements(second);
    }
    if order == second {
      forall i | 0 <= i < |rows| ensures RenameMember(order, out[i]) == out[i] {
      }
    } else if RenameMembers(second, out) == out {
      forall i | 0 <= i < |rows| ensures RenameMember(second, rows[i]).name == RenameMember(order, rows[i]).name
                                        || rows[i].contact !in order {
        assert RenameMember(second, out[i]) == out[i];
      }
      SameOrderFromNames(rows, order, second);
    }
  }

  lemma SameOrderFromNames(rows: seq<MemberRow>, a: seq<nat>, b: seq<nat>)
    requires NoRepeats(a) && NoRepeats(b) && Elements(a) == Elements(b) && |a| == |b| <= |SYNTHETIC_MEMBERS|
    requires forall c :: c in a ==> HasRow(rows, c)
    requires forall i :: 0 <= i < |rows| && rows[i].contact in a ==>
               RenameMember(b, rows[i]).name == RenameMember(a, rows[i]).name
    ensures a == b
  {
    forall i | 0 <= i < |rows| ensures RenameMember(b, rows[i]).name == RenameMember(a, rows[i]).name {
      assert rows[i].contact in Elements(a) <==> rows[i].contact in Elements(b);
    }
    SameNamesSameOrder(rows, a, b);
  }

  // ----- the other tables

  lemma AreasTwice(rules: Rules, rows: seq<AreaRow>, out: seq<AreaRow>)
    requires Each(RenameArea(rules), rows) == Ok(out)
    ensures Each(RenameArea(rules), out) == Ok(out)
  {
    EachIs(RenameArea(rules), rows, out);
    forall i | 0 <= i < |out| ensures RenameArea(rules)(out[i]) == Ok(out[i]) {
      assert RenameArea(rules)(rows[i]) == Ok(out[i]);
    }
    EachIs(RenameArea(rules), out, out);
  }

  lemma AgreementsTwice(rules: Rules, rows: seq<AgreementRow>, out: seq<AgreementRow>)
    requires Each(RenameAgreement(rules), rows) == Ok(out)
    ensures Each(RenameAgreement(rules), out) == Ok(out)
  {
    EachIs(RenameAgreement(rules), rows, out);
    forall i | 0 <= i < |out| ensures RenameAgreement(rules)(out[i]) == Ok(out[i]) {
      assert RenameAgreement(rules)(rows[i]) == Ok(out[i]);
    }
    EachIs(RenameAgreement(rules), out, out);
  }

  lemma WindowsTwice(names: map<nat, string>, rows: seq<WindowRow>, out: seq<WindowRow>)
    requires Each(RenameWindow(names), rows) == Ok(out)
    ensures Each(RenameWindow(names), out) == Ok(out)
  {
    EachIs(RenameWindow(names), rows, out);
    forall i | 0 <= i < |out| ensures RenameWindow(names)(out[i]) == Ok(out[i]) {
      assert RenameWindow(names)(rows[i]) == Ok(out[i]);
    }
    EachIs(RenameWindow(names), out, out);
  }

  ghost predicate SameTasks(a: seq<TaskRow>, b: seq<TaskRow>) {
    |a| == |b| && forall i :: 0 <= i < |a| ==>
      a[i].id == b[i].id && a[i].area == b[i].area && a[i].function_ == b[i].function_
  }

  lemma {:induction false} OrdinalIgnoresNames(rules: Rules, a: seq<TaskRow>, b: seq<TaskRow>, area: string)
    requires SameTasks(a, b)
    ensures Ordinal(rules, a, area) == Ordinal(rules, b, area)
  {
    if a != [] {
      OrdinalIgnoresNames(rules, a[..|a| - 1], b[..|b| - 1], area);
    }
  }

  lemma {:induction false} TaskNamesIgnoreNames(rules: Rules, functions: map<nat, string>, a: seq<TaskRow>, b: seq<TaskRow>)
    requires SameTasks(a, b)
    ensures TaskNames(rules, functions, a) == TaskNames(rules, functions, b)
  {
    hide Ordinal;
    if a != [] {
      TaskNamesIgnoreNames(rules, functions, a[..|a| - 1], b[..|b| - 1]);
      var t := a[|a| - 1];
      if t.area in rules.areas {
        OrdinalIgnoresNames(rules, a[..|a| - 1], b[..|b| - 1], rules.areas[t.area]);
      }
    }
  }

  /**
   Running the rewrite twice changes nothing if and only if the contacts it renames appear
   in the same order by first real row as by first row.
   */
  lemma IdempotentIff(rules: Rules, p: Payload)
    requires Anonymised(rules, p).Ok?
    ensures var q := Anonymised(rules, p).value;
            Anonymised(rules, q) == Ok(q) <==>
              RealOrder(p.members) == FirstOrder(p.members, Elements(RealOrder(p.members)))
  {
    hide Each, TaskNames, RealOrder, FirstOrder, FunctionNames, AgreementNames, MemberNames, Members;
    var q := Anonymised(rules, p).value;
    AreasTwice(rules, p.areas, q.areas);
    AgreementsTwice(rules, p.agreements, q.agreements);
    TaskNamesIgnoreNames(rules, FunctionNames(p.functions), p.tasks, q.tasks);
    var names := TaskNames(rules, FunctionNames(p.functions), p.tasks).value;
    assert RenameTasks(q.tasks, names) == q.tasks;
    MembersTwice(AgreementNames(q.agreements), p.members);
    WindowsTwice(MemberNames(q.members), p.rosters, q.rosters);
    WindowsTwice(MemberNames(q.members), p.availability, q.availability);
  }

  /** Without a contact that mixes synthetic and real rows, the rewrite is idempotent. */
  lemma UnmixedIsIdempotent(rules: Rules, p: Payload)
    requires Anonymised(rules, p).Ok?
    requires forall i, j :: 0 <= i < |p.members| && 0 <= j < |p.members| && p.members[i].contact == p.members[j].contact ==>
               (IsTestMember(p.members[i].name) <==> IsTestMember(p.members[j].name))
    ensures var q := Anonymised(rules, p).value; Anonymised(rules, q) == Ok(q)
  {
    hide IsTestMember, Anonymised;
    UnmixedOrdersAgree(p.members, |p.members|);
    assert p.members[..|p.members|] == p.members;
    IdempotentIff(rules, p);
  }

  lemma {:induction false} UnmixedOrdersAgree(rows: seq<MemberRow>, k: nat)
    requires forall i, j :: 0 <= i < |rows| && 0 <= j < |rows| && rows[i].contact == rows[j].contact ==>
               (IsTestMember(rows[i].name) <==> IsTestMember(rows[j].name))
    requires k <= |rows|
    ensures RealOrder(rows[..k]) == FirstOrder(rows[..k], Elements(RealOrder(rows)))
  {
    hide IsTestMember;
    if k > 0 {
      UnmixedOrdersAgree(rows, k - 1);
      assert rows[..k][..k - 1] == rows[..k - 1];
      RealOrderLists(rows, rows[k - 1].contact);
    }
  }

  lemma MixedOrdersDisagree(rows: seq<MemberRow>)
    requires |rows| == 3 && rows[0].contact == 1 && rows[1].contact == 2 && rows[2].contact == 1
    requires IsTestMember(rows[0].name) && !IsTestMember(rows[1].name) && !IsTestMember(rows[2].name)
    ensures RealOrder(rows) == [2, 1] && FirstOrder(rows, Elements(RealOrder(rows))) == [1, 2]
  {
    hide IsTestMember, FirstOrder;
    var one, two := rows[..1], rows[..2];
    assert rows[..|rows| - 1] == two && two[..1] == one && one[..0] == [];
    assert RealOrder(one) == [];
    assert RealOrder(two) == [2];
    assert RealOrder(rows) == [2, 1];
    assert Elements(RealOrder(rows)) == {1, 2};
    FirstOrderOfThree(rows);
  }

  lemma FirstOrderOfThree(rows: seq<MemberRow>)
    requires |rows| == 3 && rows[0].contact == 1 && rows[1].contact == 2 && rows[2].contact == 1
    ensures FirstOrder(rows, {1, 2}) == [1, 2]
  {
    var one, two := rows[..1], rows[..2];
    assert rows[..|rows| - 1] == two && two[..1] == one && one[..0] == [];
    assert FirstOrder(one, {1, 2}) == [1] by { assert one[|one| - 1].contact == 1; }
    assert FirstOrder(two, {1, 2}) == [1, 2] by { assert two[|two| - 1].contact == 2; }
  }

  /** A contact whose synthetic row comes first and whose real row comes later: a second run renames again. */
  lemma MixedContactIsRenamedTwice() returns (rules: Rules, p: Payload)
    ensures Anonymised(rules, p).Ok?
    ensures Anonymised(rules, Anonymised(rules, p).value) != Anonymised(rules, p)
  {
    var rows := [MemberRow(1, 0, "", "Test Member 1", "", 0), MemberRow(2, 0, "", "Ann", "", 0), MemberRow(1, 0, "", "Bob", "", 0)];
    assert IsTestMember("Test Member 1") by {
      assert "Test Member 1"[..12] == "Test Member " && "Test Member 1"[12] == '1';
    }
    rules := Rules(map[], map[], map[0 := ("Site Agreement", "SITE")]);
    p := Payload([], [AgreementRow(0, "", "", 0)], [], [], rows, [], []);
    MixedOrdersDisagree(rows);
    SingleAgreementPayloadIsOk(rules, p);
    IdempotentIff(rules, p);
  }

  lemma OneAgreement(row: AgreementRow)
    ensures AgreementNames([row]) == map[row.id := row.name]
  {
    var rows := [row];
    assert rows[..|rows| - 1] == [];
    assert AgreementNames(rows) == AgreementNames([])[row.id := row.name];
  }

  lemma SingleAgreementPayloadIsOk(rules: Rules, p: Payload)
    requires p.areas == [] && p.tasks == [] && p.rosters == [] && p.availability == []
    requires |p.agreements| == 1 && p.agreements[0].id in rules.agreements
    requires |RealOrder(p.members)| <= |SYNTHETIC_MEMBERS|
    requires forall i :: 0 <= i < |p.members| ==> p.members[i].agreement == p.agreements[0].id
    ensures Anonymised(rules, p).Ok?
  {
    hide RealOrder, RenameMembers;
    var a := p.agreements[0];
    var named := a.(name := rules.agreements[a.id].0, code := rules.agreements[a.id].1);
    EachIs(RenameAgreement(rules), p.agreements, [named]);
    var names := AgreementNames([named]);
    OneAgreement(named);
    var bound := seq(|p.members|, i requires 0 <= i < |p.members| => p.members[i].(agreementName := named.name));
    EachIs(BindAgreement(names), p.members, bound);
  }

  // ----- identities and what is left alone

  /**
   In the rewritten fixture the rows of a renamed contact share one name and one number, no
   other contact has either of them, and the name does not look synthetic already.
   */
  lemma RenamedContactsAreDistinct(rules: Rules, p: Payload, i: nat, j: nat)
    requires Anonymised(rules, p).Ok? && i < |p.members| && j < |p.members|
    requires HasRealRow(p.members, p.members[i].contact)
    ensures |Anonymised(rules, p).value.members| == |p.members|
    ensures var x, y := Anonymised(rules, p).value.members[i], Anonymised(rules, p).value.members[j];
            && !IsTestMember(x.name)
            && (x.name == y.name <==> p.members[i].contact == p.members[j].contact)
            && (HasRealRow(p.members, p.members[j].contact) ==>
                  (x.sapid == y.sapid <==> p.members[i].contact == p.members[j].contact))
  {
    hide Each, TaskNames, RealOrder, FunctionNames, AgreementNames, MemberNames, IsTestMember;
    var q := Anonymised(rules, p).value;
    var order := RealOrder(p.members);
    var bound := Each(BindAgreement(AgreementNames(q.agreements)), p.members).value;
    EachIs(BindAgreement(AgreementNames(q.agreements)), p.members, bound);
    forall k | 0 <= k < |p.members| ensures bound[k].contact == p.members[k].contact && bound[k].name == p.members[k].name {
      assert BindAgreement(AgreementNames(q.agreements))(p.members[k]) == Ok(bound[k]);
    }
    var a, b := p.members[i].contact, p.members[j].contact;
    RealOrderLists(p.members, a);
    RealOrderLists(p.members, b);
    RenamedRowsAreDistinct(order, bound[i], bound[j]);
  }

  lemma RenamedRowsAreDistinct(order: seq<nat>, a: MemberRow, b: MemberRow)
    requires |order| <= |SYNTHETIC_MEMBERS| && NoRepeats(order) && a.contact in order
    requires b.contact in order || IsTestMember(b.name)
    ensures var x, y := RenameMember(order, a), RenameMember(order, b);
            && (x.name == y.name <==> a.contact == b.contact)
            && (b.contact in order ==> (x.sapid == y.sapid <==> a.contact == b.contact))
            && !IsTestMember(x.name)
  {
    hide Sapid, IsTestMember;
    SyntheticMembersAreFresh(IndexOf(order, a.contact));
    if b.contact in order {
      SyntheticMembersDiffer(IndexOf(order, a.contact), IndexOf(order, b.contact));
    }
  }

  lemma SyntheticMembersDiffer(i: nat, j: nat)
    requires i < |SYNTHETIC_MEMBERS| && j < |SYNTHETIC_MEMBERS|
    ensures SYNTHETIC_MEMBERS[i] == SYNTHETIC_MEMBERS[j] <==> i == j
    ensures Sapid(i) == Sapid(j) <==> i == j
  {
    hide Digit;
    if i != j {
      assert Sapid(i)[6..] == [Digit((i + 1) / 10), Digit((i + 1) % 10)];
      assert Sapid(j)[6..] == [Digit((j + 1) / 10), Digit((j + 1) % 10)];
      DigitsTellApart(i, j);
    }
  }

  lemma DigitsTellApart(i: nat, j: nat)
    requires i < 10 && j < 10 && i != j
    ensures Digit((i + 1) / 10) != Digit((j + 1) / 10) || Digit((i + 1) % 10) != Digit((j + 1) % 10)
  {
    DigitIsInjective((i + 1) / 10, (j + 1) / 10);
    DigitIsInjective((i + 1) % 10, (j + 1) % 10);
  }

  lemma DigitIsInjective(a: nat, b: nat)
    requires a < 10 && b < 10
    ensures Digit(a) == Digit(b) <==> a == b
  {
  }

  /** Ids and every untouched field survive, row by row. */
  lemma OnlyNamesChange(rules: Rules, p: Payload)
    requires Anonymised(rules, p).Ok?
    ensures var q := Anonymised(rules, p).value;
            && q.functions == p.functions
            && |q.areas| == |p.areas| && |q.agreements| == |p.agreements| && |q.tasks| == |p.tasks|
            && |q.members| == |p.members| && |q.rosters| == |p.rosters| && |q.availability| == |p.availability|
            && (forall i :: 0 <= i < |p.areas| ==> q.areas[i].id == p.areas[i].id && q.areas[i].rest == p.areas[i].rest)
            && (forall i :: 0 <= i < |p.agreements| ==>
                  q.agreements[i].id == p.agreements[i].id && q.agreements[i].rest == p.agreements[i].rest)
            && (forall i :: 0 <= i < |p.tasks| ==> q.tasks[i] == p.tasks[i].(name := q.tasks[i].name))
            && (forall i :: 0 <= i < |p.members| ==>
                  q.members[i].contact == p.members[i].contact && q.members[i].agreement == p.members[i].agreement
                  && q.members[i].rest == p.members[i].rest)
            && (forall i :: 0 <= i < |p.rosters| ==> q.rosters[i] == p.rosters[i].(name := q.rosters[i].name))
            && (forall i :: 0 <= i < |p.availability| ==>
                  q.availability[i] == p.availability[i].(name := q.availability[i].name))
  {
    hide Each, TaskNames, RealOrder, FunctionNames, AgreementNames, MemberNames;
    var q := Anonymised(rules, p).value;
    EachIs(RenameArea(rules), p.areas, q.areas);
    EachIs(RenameAgreement(rules), p.agreements, q.agreements);
    EachIs(RenameWindow(MemberNames(q.members)), p.rosters, q.rosters);
    EachIs(RenameWindow(MemberNames(q.members)), p.availability, q.availability);
    var bound := Each(BindAgreement(AgreementNames(q.agreements)), p.members).value;
    EachIs(BindAgreement(AgreementNames(q.agreements)), p.members, bound);
  }

  lemma {:induction false} OrdinalGrows(rules: Rules, tasks: seq<TaskRow>, k: nat, area: string)
    requires k <= |tasks|
    ensures Ordinal(rules, tasks[..k], area) <= Ordinal(rules, tasks, area)
  {
    if k < |tasks| {
      OrdinalGrows(rules, tasks[..|tasks| - 1], k, area);
      assert tasks[..|tasks| - 1][..k] == tasks[..k];
    } else {
      assert tasks[..k] == tasks;
    }
  }

  // ----- generated task names

  /**
   Names with the same beginning come from the same area, and no beginning continues another by
   a digit that could start an ordinal.
   */
  ghost predicate HeadsTellApart(rules: Rules) {
    forall a, b, r, q |
      && a in rules.areas.Values && b in rules.areas.Values && a != [] && b != []
      && r in rules.labels.Values && q in rules.labels.Values
      :: (NameHead(a, r) == NameHead(b, q) ==> a == b) && !('1' <= b[0] <= '9' && NameHead(b, q) == NameHead(a, r) + [b[0]])
  }

  lemma {:induction false} DecimalIsDigits(n: nat)
    ensures forall i :: 0 <= i < |Decimal(n)| ==> IsDigit(Decimal(n)[i])
    ensures n > 0 ==> Decimal(n)[0] != '0'
    ensures n >= 10 ==> |Decimal(n)| >= 2
  {
    if n >= 10 {
      DecimalIsDigits(n / 10);
    }
  }

  lemma {:induction false} DecimalIsInjective(m: nat, n: nat)
    requires Decimal(m) == Decimal(n)
    ensures m == n
  {
    hide Digit;
    if m < 10 && n < 10 {
      DigitIsInjective(m, n);
    } else {
      DecimalIsDigits(m);
      DecimalIsDigits(n);
      var s, t := Decimal(m / 10), Decimal(n / 10);
      assert m >= 10 && n >= 10;
      assert (s + [Digit(m % 10)])[..|s|] == s && (t + [Digit(n % 10)])[..|t|] == t;
      DigitIsInjective(m % 10, n % 10);
      DecimalIsInjective(m / 10, n / 10);
    }
  }

  lemma TwoDigitsAreInjective(m: nat, n: nat)
    requires TwoDigits(m) == TwoDigits(n)
    ensures m == n
  {
    hide Digit, Decimal;
    DecimalIsDigits(m);
    DecimalIsDigits(n);
    if m < 10 && n < 10 {
      DigitIsInjective(m, n);
    } else if m >= 10 && n >= 10 {
      DecimalIsInjective(m, n);
    }
  }

  lemma TwoDigitsAreDigits(n: nat)
    ensures |TwoDigits(n)| >= 2 && forall i :: 0 <= i < |TwoDigits(n)| ==> IsDigit(TwoDigits(n)[i])
    ensures |TwoDigits(n)| >= 3 ==> TwoDigits(n)[0] != '0'
  {
    hide Decimal;
    DecimalIsDigits(n);
  }

  /** Two beginnings of different length can meet only if the longer one adds a digit to a blank. */
  lemma LongerHead(x: string, s: string, y: string, t: string)
    requires |y| >= 2 && y[|y| - 2] == ' ' && |x| < |y| && x + s == y + t
    requires (forall i :: 0 <= i < |s| ==> IsDigit(s[i])) && |t| >= 2 && (|s| >= 3 ==> s[0] != '0')
    ensures y == x + [y[|y| - 1]] && '1' <= y[|y| - 1] <= '9'
  {
    var w := x + s;
    assert w == y + t;
    assert forall i :: |x| <= i < |w| ==> IsDigit(w[i]);
    assert w[|y| - 2] == ' ';
    assert |y| == |x| + 1;
    assert w[|x|] == s[0] == y[|y| - 1];
    assert x == w[..|x|] == y[..|x|];
  }

  /** A name determines its head and its ordinal, if heads can be told apart. */
  lemma NameSplits(rules: Rules, a: string, r: (string, string), m: nat, b: string, q: (string, string), n: nat)
    requires HeadsTellApart(rules) && a in rules.areas.Values && b in rules.areas.Values && a != [] && b != []
    requires r in rules.labels.Values && q in rules.labels.Values
    requires NameHead(a, r) + TwoDigits(m) == NameHead(b, q) + TwoDigits(n)
    ensures a == b && m == n
  {
    hide TwoDigits;
    var x, y := NameHead(a, r), NameHead(b, q);
    TwoDigitsAreDigits(m);
    TwoDigitsAreDigits(n);
    if |x| < |y| {
      LongerHead(x, TwoDigits(m), y, TwoDigits(n));
      assert false;
    } else if |y| < |x| {
      LongerHead(y, TwoDigits(n), x, TwoDigits(m));
      assert false;
    }
    assert x == (x + TwoDigits(m))[..|x|] && y == (y + TwoDigits(n))[..|y|];
    assert TwoDigits(m) == (x + TwoDigits(m))[|x|..] && TwoDigits(n) == (y + TwoDigits(n))[|y|..];
    TwoDigitsAreInjective(m, n);
  }

  /** Within an area the ordinals differ. */
  lemma GeneratedNamesDiffer(rules: Rules, functions: map<nat, string>, tasks: seq<TaskRow>, i: nat, j: nat)
    requires i < j < |tasks| && HeadsTellApart(rules)
    requires NameTask(rules, functions, tasks[..i], tasks[i]).Ok? && NameTask(rules, functions, tasks[..j], tasks[j]).Ok?
    ensures NameTask(rules, functions, tasks[..i], tasks[i]) != NameTask(rules, functions, tasks[..j], tasks[j])
  {
    hide NameHead, TwoDigits, HeadsTellApart;
    var a, b := rules.areas[tasks[i].area], rules.areas[tasks[j].area];
    var r, q := rules.labels[functions[tasks[i].function_]], rules.labels[functions[tasks[j].function_]];
    var m, n := Ordinal(rules, tasks[..i], a) + 1, Ordinal(rules, tasks[..j], b) + 1;
    assert tasks[..j][..i + 1] == tasks[..i + 1] && tasks[..i + 1][..i] == tasks[..i];
    OrdinalGrows(rules, tasks[..j], i + 1, a);
    if NameHead(a, r) + TwoDigits(m) == NameHead(b, q) + TwoDigits(n) {
      NameSplits(rules, a, r, m, b, q, n);
      assert false;
    }
  }

  /** A task id is filed under the name of one of the tasks that carry it. */
  lemma {:induction false} FiledName(rules: Rules, functions: map<nat, string>, tasks: seq<TaskRow>, id: nat) returns (k: nat)
    requires TaskNames(rules, functions, tasks).Ok? && exists i :: 0 <= i < |tasks| && tasks[i].id == id
    ensures k < |tasks| && tasks[k].id == id && id in TaskNames(rules, functions, tasks).value
    ensures NameTask(rules, functions, tasks[..k], tasks[k]) == Ok(TaskNames(rules, functions, tasks).value[id])
  {
    hide NameTask;
    var n := |tasks| - 1;
    if tasks[n].id == id {
      k := n;
    } else {
      var i :| 0 <= i < |tasks| && tasks[i].id == id;
      assert tasks[..n][i].id == id;
      k := FiledName(rules, functions, tasks[..n], id);
      assert tasks[..n][..k] == tasks[..k];
    }
  }

  /** In the rewritten fixture tasks share a name exactly when they share an id. */
  lemma TasksShareANameIff(rules: Rules, p: Payload, i: nat, j: nat)
    requires Anonymised(rules, p).Ok? && i < |p.tasks| && j < |p.tasks|
    requires HeadsTellApart(rules)
    ensures var q := Anonymised(rules, p).value;
            q.tasks[i].name == q.tasks[j].name <==> p.tasks[i].id == p.tasks[j].id
  {
    hide Each, TaskNames, FunctionNames, Members, MemberNames, AgreementNames, NameTask, HeadsTellApart;
    var functions := FunctionNames(p.functions);
    var k := FiledName(rules, functions, p.tasks, p.tasks[i].id);
    var l := FiledName(rules, functions, p.tasks, p.tasks[j].id);
    if k < l {
      GeneratedNamesDiffer(rules, functions, p.tasks, k, l);
    } else if l < k {
      GeneratedNamesDiffer(rules, functions, p.tasks, l, k);
    }
  }

  /** Tasks of one area, and after them one of another area whose name the last of them may share. */
  function CollidingPayload(n: nat, x: nat, f: string, y: nat, g: string): Payload {
    Payload([], [], [FunctionRow(0, f), FunctionRow(1, g)],
            seq(n, i requires 0 <= i < n => TaskRow(i, x, 0, "", 0)) + [TaskRow(n, y, 1, "", 0)], [], [], [])
  }

  lemma {:induction false} OrdinalInOneArea(rules: Rules, tasks: seq<TaskRow>, x: nat, area: string)
    requires x in rules.areas && forall i :: 0 <= i < |tasks| ==> tasks[i].area == x
    ensures Ordinal(rules, tasks, area) == if rules.areas[x] == area then |tasks| else 0
  {
    if tasks != [] {
      OrdinalInOneArea(rules, tasks[..|tasks| - 1], x, area);
    }
  }

  lemma {:induction false} AllNamedIsNamed(rules: Rules, functions: map<nat, string>, tasks: seq<TaskRow>)
    requires forall i :: 0 <= i < |tasks| ==> NameTask(rules, functions, tasks[..i], tasks[i]).Ok?
    ensures TaskNames(rules, functions, tasks).Ok?
  {
    hide NameTask;
    if tasks != [] {
      var n := |tasks| - 1;
      forall i | 0 <= i < n ensures tasks[..n][..i] == tasks[..i] {
      }
      AllNamedIsNamed(rules, functions, tasks[..n]);
    }
  }

  lemma TwoFunctions(f: string, g: string)
    ensures FunctionNames([FunctionRow(0, f), FunctionRow(1, g)]) == map[0 := f, 1 := g]
  {
    var rows := [FunctionRow(0, f), FunctionRow(1, g)];
    assert rows[..1] == [rows[0]] && rows[..1][..0] == [];
    assert FunctionNames(rows[..1]) == map[0 := f];
  }

  lemma CollidingNames(rules: Rules, n: nat, extra: string, x: nat, f: string, y: nat, g: string)
    requires x in rules.areas && y in rules.areas && f in rules.labels && g in rules.labels && n > 0
    requires rules.areas[x] != [] && rules.areas[y] != [] && rules.areas[x] != rules.areas[y]
    requires NameHead(rules.areas[y], rules.labels[g]) == NameHead(rules.areas[x], rules.labels[f]) + extra
    requires TwoDigits(n) == extra + TwoDigits(1)
    ensures var p := CollidingPayload(n, x, f, y, g);
            && |p.tasks| == n + 1 && p.tasks[n - 1].id != p.tasks[n].id
            && TaskNames(rules, FunctionNames(p.functions), p.tasks).Ok?
            && var names := TaskNames(rules, FunctionNames(p.functions), p.tasks).value;
               p.tasks[n - 1].id in names && p.tasks[n].id in names && names[p.tasks[n - 1].id] == names[p.tasks[n].id]
  {
    hide NameHead, TwoDigits, TaskNames, FunctionNames, Ordinal;
    var p := CollidingPayload(n, x, f, y, g);
    var functions, tasks := FunctionNames(p.functions), p.tasks;
    TwoFunctions(f, g);
    forall i | 0 <= i < |tasks| ensures NameTask(rules, functions, tasks[..i], tasks[i]).Ok? {
    }
    AllNamedIsNamed(rules, functions, tasks);
    OrdinalInOneArea(rules, tasks[..n - 1], x, rules.areas[x]);
    OrdinalInOneArea(rules, tasks[..n], x, rules.areas[y]);
    var k := FiledName(rules, functions, tasks, tasks[n - 1].id);
    var l := FiledName(rules, functions, tasks, tasks[n].id);
    assert k == n - 1 && l == n;
    var head, one := NameHead(rules.areas[x], rules.labels[f]), TwoDigits(1);
    assert NameTask(rules, functions, tasks[..k], tasks[k]) == Ok(head + TwoDigits(n));
    assert NameTask(rules, functions, tasks[..l], tasks[l]) == Ok(head + extra + one);
    assert head + extra + one == head + (extra + one);
  }

  /** An ordinal that starts with the given digit and goes on like the first one. */
  lemma OrdinalStartingWith(c: char) returns (n: nat)
    requires '1' <= c <= '9'
    ensures n > 0 && TwoDigits(n) == [c] + TwoDigits(1)
  {
    var d := (c - '0') as nat;
    n := 100 * d + 1;
    assert n / 10 == 10 * d && n % 10 == 1 && 10 * d / 10 == d && 10 * d % 10 == 0;
    assert Decimal(10 * d) == [Digit(d)] + [Digit(0)];
    assert Digit(d) == c;
    assert TwoDigits(n) == [c, '0', '1'];
  }

  lemma NothingElseFails(rules: Rules, p: Payload)
    requires p.areas == [] && p.agreements == [] && p.members == [] && p.rosters == [] && p.availability == []
    requires TaskNames(rules, FunctionNames(p.functions), p.tasks).Ok?
    ensures Anonymised(rules, p).Ok?
    ensures Anonymised(rules, p).value.tasks ==
            RenameTasks(p.tasks, TaskNames(rules, FunctionNames(p.functions), p.tasks).value)
  {
    hide TaskNames, FunctionNames, RenameTasks;
  }

  /** Different tasks get different names in every fixture if and only if the beginnings of names can be told apart. */
  lemma NamesDifferIff(rules: Rules)
    ensures (forall p, i: nat, j: nat ::
               Anonymised(rules, p).Ok? && i < |p.tasks| && j < |p.tasks| && p.tasks[i].id != p.tasks[j].id ==>
                 |Anonymised(rules, p).value.tasks| == |p.tasks|
                 && Anonymised(rules, p).value.tasks[i].name != Anonymised(rules, p).value.tasks[j].name)
            <==> HeadsTellApart(rules)
  {
    hide Anonymised, HeadsTellApart;
    forall p | Anonymised(rules, p).Ok? ensures |Anonymised(rules, p).value.tasks| == |p.tasks| {
      OnlyNamesChange(rules, p);
    }
    if HeadsTellApart(rules) {
      forall p, i: nat, j: nat | Anonymised(rules, p).Ok? && i < |p.tasks| && j < |p.tasks| && p.tasks[i].id != p.tasks[j].id
        ensures Anonymised(rules, p).value.tasks[i].name != Anonymised(rules, p).value.tasks[j].name
      {
        TasksShareANameIff(rules, p, i, j);
      }
    } else {
      var p, n := CollidingFixture(rules);
      assert n - 1 < |p.tasks| && n < |p.tasks|;
    }
  }

  /** Rules that cannot tell beginnings apart have a fixture that shows it. */
  lemma CollidingFixture(rules: Rules) returns (p: Payload, n: nat)
    requires !HeadsTellApart(rules)
    ensures n > 0 && |p.tasks| == n + 1 && p.tasks[n - 1].id != p.tasks[n].id
    ensures Anonymised(rules, p).Ok? && |Anonymised(rules, p).value.tasks| == n + 1
    ensures Anonymised(rules, p).value.tasks[n - 1].name == Anonymised(rules, p).value.tasks[n].name
  {
    hide Anonymised, NameHead, TwoDigits, TaskNames, FunctionNames;
    var a, b, r, q :| && a in rules.areas.Values && b in rules.areas.Values && a != [] && b != []
                      && r in rules.labels.Values && q in rules.labels.Values
                      && ((NameHead(a, r) == NameHead(b, q) && a != b)
                          || ('1' <= b[0] <= '9' && NameHead(b, q) == NameHead(a, r) + [b[0]]));
    var x :| x in rules.areas && rules.areas[x] == a;
    var y :| y in rules.areas && rules.areas[y] == b;
    var f :| f in rules.labels && rules.labels[f] == r;
    var g :| g in rules.labels && rules.labels[g] == q;
    var extra: string := [];
    n := 1;
    if !(NameHead(a, r) == NameHead(b, q) && a != b) {
      extra := [b[0]];
      n := OrdinalStartingWith(b[0]);
      BlankBeforeTheInitial(a, r, b, q);
    }
    assert NameHead(a, r) + [] == NameHead(a, r) && [] + TwoDigits(1) == TwoDigits(1);
    p := CollidingPayload(n, x, f, y, g);
    CollidingNames(rules, n, extra, x, f, y, g);
    NothingElseFails(rules, p);
  }

  /** The character before an initial is a blank, so a beginning continued by a digit belongs to another area. */
  lemma BlankBeforeTheInitial(a: string, r: (string, string), b: string, q: (string, string))
    requires a != [] && b != [] && '1' <= b[0] <= '9' && NameHead(b, q) == NameHead(a, r) + [b[0]]
    ensures a != b
  {
    var x, y := NameHead(a, r), NameHead(b, q);
    assert x[|x| - 1] == a[0] && y[|y| - 2] == ' ';
    assert y[|y| - 2] == x[|x| - 1];
  }

  const AREA_NAMES := {"Chiller", "Freezer", "Main"}

  /** The shipped area names begin with different letters, so no two tasks share a name under them. */
  lemma ShippedNamesDiffer(rules: Rules)
    requires rules.areas.Values <= AREA_NAMES
    ensures HeadsTellApart(rules)
  {
    hide NameHead;
    forall a, b, r, q | a in rules.areas.Values && b in rules.areas.Values && a != [] && b != []
      ensures NameHead(a, r) == NameHead(b, q) ==> a == b
      ensures !('1' <= b[0] <= '9')
    {
      HeadEndsWithInitial(a, r);
      HeadEndsWithInitial(b, q);
    }
  }

  lemma HeadEndsWithInitial(a: string, r: (string, string))
    requires a != []
    ensures NameHead(a, r) != [] && NameHead(a, r)[|NameHead(a, r)| - 1] == a[0]
  {
  }

  /** Two areas with the same initial whose names run into the duty: some fixture gives two tasks one name. */
  lemma SharedInitialsCollide() returns (rules: Rules)
    ensures !HeadsTellApart(rules)
  {
    rules := Rules(map[0 := "A", 1 := "A B"], map["f" := ("B C", "x"), "g" := ("C", "x")], map[]);
    var a, b, r, q := "A", "A B", ("B C", "x"), ("C", "x");
    assert rules.areas[0] == a && rules.areas[1] == b && rules.labels["f"] == r && rules.labels["g"] == q;
    assert NameHead(a, r) == "A B C | x A";
    assert NameHead(b, q) == "A B C | x A";
    assert a != b;
  }

  // ----- what the rewritten fixture says

  /** The name is `Test Member ` followed by these digits, at least one. */
  ghost predicate IsTestName(name: string, digits: string) {
    name == "Test Member " + digits && digits != "" && forall i :: 0 <= i < |digits| ==> digits[i] in "0123456789"
  }

  /** A name is synthetic already exactly when it is `Test Member ` and a number. */
  lemma TestMemberIff(name: string)
    ensures IsTestMember(name) <==> exists digits :: IsTestName(name, digits)
  {
    assert forall c: char :: c in "0123456789" <==> IsDigit(c);
    assert |"Test Member "| == 12;
    if IsTestMember(name) {
      var digits := name[12..];
      forall i | 0 <= i < |digits| ensures digits[i] in "0123456789" {
        assert IsDigit(name[12 + i]);
      }
      assert IsTestName(name, digits);
    }
    if exists digits :: IsTestName(name, digits) {
      var digits :| IsTestName(name, digits);
      assert name[..12] == "Test Member ";
      forall i | 12 <= i < |name| ensures IsDigit(name[i]) {
        assert name[i] == digits[i - 12];
      }
    }
  }

  lemma {:induction false} AgreementNameIs(rules: Rules, rows: seq<AgreementRow>, out: seq<AgreementRow>, id: nat)
    requires Each(RenameAgreement(rules), rows) == Ok(out)
    ensures id in AgreementNames(out) <==> exists i :: 0 <= i < |rows| && rows[i].id == id
    ensures id in AgreementNames(out) ==> id in rules.agreements && AgreementNames(out)[id] == rules.agreements[id].0
  {
    hide Each;
    EachIs(RenameAgreement(rules), rows, out);
    forall i | 0 <= i < |out| ensures out[i].id == rows[i].id && out[i].id in rules.agreements && out[i].name == rules.agreements[out[i].id].0 {
      assert RenameAgreement(rules)(rows[i]) == Ok(out[i]);
    }
    AgreementNamesAre(rules, out, |out|, id);
    assert out[..|out|] == out;
  }

  lemma {:induction false} AgreementNamesAre(rules: Rules, out: seq<AgreementRow>, k: nat, id: nat)
    requires k <= |out|
    requires forall i :: 0 <= i < |out| ==> out[i].id in rules.agreements && out[i].name == rules.agreements[out[i].id].0
    ensures id in AgreementNames(out[..k]) <==> exists i :: 0 <= i < k && out[i].id == id
    ensures id in AgreementNames(out[..k]) ==> id in rules.agreements && AgreementNames(out[..k])[id] == rules.agreements[id].0
  {
    if k > 0 {
      AgreementNamesAre(rules, out, k - 1, id);
      assert out[..k][..k - 1] == out[..k - 1];
    }
  }

  /** The last row of a contact. */
  ghost predicate IsLastRow(rows: seq<MemberRow>, c: nat, i: int) {
    0 <= i < |rows| && rows[i].contact == c && forall j :: i < j < |rows| ==> rows[j].contact != c
  }

  lemma {:induction false} MemberNameIs(rows: seq<MemberRow>, c: nat)
    ensures c in MemberNames(rows) <==> exists i :: IsLastRow(rows, c, i)
    ensures c in MemberNames(rows) ==> exists i :: IsLastRow(rows, c, i) && MemberNames(rows)[c] == rows[i].name
    ensures c in MemberNames(rows) <==> HasRow(rows, c)
  {
    if rows != [] {
      var n := |rows| - 1;
      var front := rows[..n];
      MemberNameIs(front, c);
      if rows[n].contact == c {
        assert IsLastRow(rows, c, n);
      } else {
        forall i ensures IsLastRow(front, c, i) <==> IsLastRow(rows, c, i) {
          LastRowStays(rows, c, i);
        }
        if c in MemberNames(front) {
          var i :| IsLastRow(front, c, i) && MemberNames(front)[c] == front[i].name;
          assert IsLastRow(rows, c, i);
        }
      }
    }
  }

  lemma LastRowStays(rows: seq<MemberRow>, c: nat, i: int)
    requires rows != [] && rows[|rows| - 1].contact != c
    ensures IsLastRow(rows[..|rows| - 1], c, i) <==> IsLastRow(rows, c, i)
  {
  }

  /**
   Every name is the one its rule gives: areas and agreements by their id, a member's agreement by
   its own, roster and availability rows by the last row of their contact.
   */
  lemma NamesAreTheRules(rules: Rules, p: Payload)
    requires Anonymised(rules, p).Ok?
    ensures var q := Anonymised(rules, p).value;
            && |q.areas| == |p.areas| && |q.agreements| == |p.agreements| && |q.members| == |p.members|
            && |q.rosters| == |p.rosters| && |q.availability| == |p.availability|
            && (forall i :: 0 <= i < |p.areas| ==>
                  p.areas[i].id in rules.areas && q.areas[i].name == q.areas[i].code == rules.areas[p.areas[i].id])
            && (forall i :: 0 <= i < |p.agreements| ==>
                  p.agreements[i].id in rules.agreements
                  && (q.agreements[i].name, q.agreements[i].code) == rules.agreements[p.agreements[i].id])
            && (forall i :: 0 <= i < |p.members| ==>
                  p.members[i].agreement in rules.agreements
                  && q.members[i].agreementName == rules.agreements[p.members[i].agreement].0)
            && (forall i :: 0 <= i < |p.rosters| ==> IsNamedByTheLastRow(q.members, p.rosters[i].contact, q.rosters[i].name))
            && (forall i :: 0 <= i < |p.availability| ==>
                  IsNamedByTheLastRow(q.members, p.availability[i].contact, q.availability[i].name))
  {
    hide Each, TaskNames, RealOrder, FunctionNames, AgreementNames, MemberNames, IsNamedByTheLastRow;
    var q := Anonymised(rules, p).value;
    var agreements, names := AgreementNames(q.agreements), MemberNames(q.members);
    EachIs(RenameArea(rules), p.areas, q.areas);
    EachIs(RenameAgreement(rules), p.agreements, q.agreements);
    EachIs(RenameWindow(names), p.rosters, q.rosters);
    EachIs(RenameWindow(names), p.availability, q.availability);
    var bound := Each(BindAgreement(agreements), p.members).value;
    EachIs(BindAgreement(agreements), p.members, bound);
    forall i | 0 <= i < |p.areas|
      ensures p.areas[i].id in rules.areas && q.areas[i].name == q.areas[i].code == rules.areas[p.areas[i].id]
    {
      assert RenameArea(rules)(p.areas[i]) == Ok(q.areas[i]);
    }
    forall i | 0 <= i < |p.agreements|
      ensures p.agreements[i].id in rules.agreements
              && (q.agreements[i].name, q.agreements[i].code) == rules.agreements[p.agreements[i].id]
    {
      assert RenameAgreement(rules)(p.agreements[i]) == Ok(q.agreements[i]);
    }
    forall i | 0 <= i < |p.members|
      ensures p.members[i].agreement in rules.agreements
              && q.members[i].agreementName == rules.agreements[p.members[i].agreement].0
    {
      assert BindAgreement(agreements)(p.members[i]) == Ok(bound[i]);
      AgreementNameIs(rules, p.agreements, q.agreements, p.members[i].agreement);
    }
    forall i | 0 <= i < |p.rosters| ensures IsNamedByTheLastRow(q.members, p.rosters[i].contact, q.rosters[i].name) {
      assert RenameWindow(names)(p.rosters[i]) == Ok(q.rosters[i]);
      NamedByTheLastRow(q.members, p.rosters[i].contact);
    }
    forall i | 0 <= i < |p.availability|
      ensures IsNamedByTheLastRow(q.members, p.availability[i].contact, q.availability[i].name)
    {
      assert RenameWindow(names)(p.availability[i]) == Ok(q.availability[i]);
      NamedByTheLastRow(q.members, p.availability[i].contact);
    }
  }

  ghost predicate IsNamedByTheLastRow(rows: seq<MemberRow>, c: nat, name: string) {
    exists i :: 0 <= i < |rows| && rows[i].contact == c && rows[i].name == name
                && forall j :: i < j < |rows| ==> rows[j].contact != c
  }

  lemma NamedByTheLastRow(rows: seq<MemberRow>, c: nat)
    requires c in MemberNames(rows)
    ensures IsNamedByTheLastRow(rows, c, MemberNames(rows)[c])
  {
    hide MemberNames;
    MemberNameIs(rows, c);
  }

  /** Row `i` is the first of its contact that is not synthetic yet. */
  ghost predicate IsFirstRealRow(rows: seq<MemberRow>, i: int) {
    && 0 <= i < |rows| && !IsTestMember(rows[i].name)
    && forall j :: 0 <= j < i && rows[j].contact == rows[i].contact ==> IsTestMember(rows[j].name)
  }

  /** The contacts to rename come in the order of their first real rows. */
  lemma {:induction false} RealOrderIsByFirstRealRow(rows: seq<MemberRow>, i: nat, j: nat)
    requires i < j && IsFirstRealRow(rows, i) && IsFirstRealRow(rows, j)
    ensures exists a, b :: 0 <= a < b < |RealOrder(rows)| && RealOrder(rows)[a] == rows[i].contact && RealOrder(rows)[b] == rows[j].contact
  {
    hide IsTestMember;
    var n := |rows| - 1;
    var front := rows[..n];
    if j < n {
      assert IsFirstRealRow(front, i) && IsFirstRealRow(front, j);
      RealOrderIsByFirstRealRow(front, i, j);
      var a, b :| 0 <= a < b < |RealOrder(front)| && RealOrder(front)[a] == rows[i].contact && RealOrder(front)[b] == rows[j].contact;
      assert RealOrder(front) <= RealOrder(rows);
      assert RealOrder(rows)[a] == rows[i].contact && RealOrder(rows)[b] == rows[j].contact;
    } else {
      RealOrderLists(front, rows[i].contact);
      RealOrderLists(front, rows[j].contact);
      assert front[i] == rows[i] && HasRealRow(front, rows[i].contact);
      assert !HasRealRow(front, rows[j].contact);
      var a :| 0 <= a < |RealOrder(front)| && RealOrder(front)[a] == rows[i].contact;
      assert RealOrder(rows)[a] == rows[i].contact && RealOrder(rows)[|RealOrder(front)|] == rows[j].contact;
    }
  }

  /** The `k`-th contact to rename takes the `k`-th synthetic name and the number after 998000. */
  lemma RenamedByPosition(rules: Rules, p: Payload, i: nat, k: nat)
    requires Anonymised(rules, p).Ok? && i < |p.members|
    requires k < |RealOrder(p.members)| && RealOrder(p.members)[k] == p.members[i].contact
    ensures |RealOrder(p.members)| <= 10 && |Anonymised(rules, p).value.members| == |p.members|
    ensures var x := Anonymised(rules, p).value.members[i];
            && x.name == SYNTHETIC_MEMBERS[k]
            && x.sapid == "998000" + TwoDigits(k + 1)
  {
    hide Each, TaskNames, RealOrder, FunctionNames, AgreementNames, MemberNames, IsTestMember;
    var q := Anonymised(rules, p).value;
    var bound := Each(BindAgreement(AgreementNames(q.agreements)), p.members).value;
    EachIs(BindAgreement(AgreementNames(q.agreements)), p.members, bound);
    assert BindAgreement(AgreementNames(q.agreements))(p.members[i]) == Ok(bound[i]);
    RealOrderLists(p.members, 0);
    IndexOfIs(RealOrder(p.members), k);
    SapidIs(k);
  }

  lemma SapidIs(k: nat)
    requires k < 10
    ensures Sapid(k) == "998000" + TwoDigits(k + 1)
  {
    if k == 9 {
      assert Decimal(10) == Decimal(1) + [Digit(0)];
    }
  }

  ghost predicate IsDeclared(agreements: seq<AgreementRow>, id: nat) {
    exists j :: 0 <= j < |agreements| && agreements[j].id == id
  }

  /** The whole rewrite succeeds exactly when every rule it needs is there. */
  lemma RewriteSucceedsIff(rules: Rules, p: Payload)
    ensures Anonymised(rules, p).Ok? <==>
              && (forall i :: 0 <= i < |p.areas| ==> p.areas[i].id in rules.areas)
              && (forall i :: 0 <= i < |p.agreements| ==> p.agreements[i].id in rules.agreements)
              && (forall i :: 0 <= i < |p.tasks| ==>
                    NameTask(rules, FunctionNames(p.functions), p.tasks[..i], p.tasks[i]).Ok?)
              && |RealOrder(p.members)| <= 10
              && (forall i :: 0 <= i < |p.members| ==> IsDeclared(p.agreements, p.members[i].agreement))
              && (forall i :: 0 <= i < |p.rosters| ==> HasRow(p.members, p.rosters[i].contact))
              && (forall i :: 0 <= i < |p.availability| ==> HasRow(p.members, p.availability[i].contact))
  {
    hide Each, TaskNames, RealOrder, FunctionNames, AgreementNames, MemberNames, NameTask, HasRow, RenameMembers;
    AreasOkIff(rules, p.areas);
    AgreementsOkIff(rules, p.agreements);
    TaskNamesOkIff(rules, FunctionNames(p.functions), p.tasks);
    if Each(RenameAgreement(rules), p.agreements).Ok? {
      var agreements := Each(RenameAgreement(rules), p.agreements).value;
      var names := AgreementNames(agreements);
      BindingOkIff(names, p.members);
      forall i | 0 <= i < |p.members|
        ensures p.members[i].agreement in names <==> IsDeclared(p.agreements, p.members[i].agreement)
      {
        AgreementNameIs(rules, p.agreements, agreements, p.members[i].agreement);
      }
      if Members(names, p.members).Ok? {
        var members := Members(names, p.members).value;
        WindowsOkIff(MemberNames(members), p.rosters);
        WindowsOkIff(MemberNames(members), p.availability);
        forall c ensures c in MemberNames(members) <==> HasRow(p.members, c) {
          MemberNameIs(members, c);
          SameContacts(names, p.members, members, c);
        }
        forall i | 0 <= i < |p.rosters|
          ensures p.rosters[i].contact in MemberNames(members) <==> HasRow(p.members, p.rosters[i].contact)
        {
        }
        forall i | 0 <= i < |p.availability|
          ensures p.availability[i].contact in MemberNames(members) <==> HasRow(p.members, p.availability[i].contact)
        {
        }
      }
    }
  }

  /** `e` names the first row whose id is not known. */
  ghost predicate AreaComplaint(rows: seq<AreaRow>, known: set<nat>, e: RuleError) {
    exists i :: 0 <= i < |rows| && rows[i].id !in known && e == NoAreaRule(rows[i].id)
                && forall j :: 0 <= j < i ==> rows[j].id in known
  }

  lemma AreasOkIff(rules: Rules, rows: seq<AreaRow>)
    ensures Each(RenameArea(rules), rows).Ok? <==> forall i :: 0 <= i < |rows| ==> rows[i].id in rules.areas
    ensures Each(RenameArea(rules), rows).Err? ==> AreaComplaint(rows, rules.areas.Keys, Each(RenameArea(rules), rows).error)
  {
    hide Each;
    EachOkIff(RenameArea(rules), rows);
    forall i | 0 <= i < |rows| ensures RenameArea(rules)(rows[i]).Ok? <==> rows[i].id in rules.areas {
    }
  }

  /** `e` names the first row whose id is not known. */
  ghost predicate AgreementComplaint(rows: seq<AgreementRow>, known: set<nat>, e: RuleError) {
    exists i :: 0 <= i < |rows| && rows[i].id !in known && e == NoAgreementRule(rows[i].id)
                && forall j :: 0 <= j < i ==> rows[j].id in known
  }

  lemma AgreementsOkIff(rules: Rules, rows: seq<AgreementRow>)
    ensures Each(RenameAgreement(rules), rows).Ok? <==> forall i :: 0 <= i < |rows| ==> rows[i].id in rules.agreements
    ensures Each(RenameAgreement(rules), rows).Err? ==> AgreementComplaint(rows, rules.agreements.Keys, Each(RenameAgreement(rules), rows).error)
  {
    hide Each;
    EachOkIff(RenameAgreement(rules), rows);
    forall i | 0 <= i < |rows| ensures RenameAgreement(rules)(rows[i]).Ok? <==> rows[i].id in rules.agreements {
    }
  }

  /** `e` names the first row whose agreement is not known. */
  ghost predicate BindingComplaint(rows: seq<MemberRow>, known: set<nat>, e: RuleError) {
    exists i :: 0 <= i < |rows| && rows[i].agreement !in known && e == NoAgreementRule(rows[i].agreement)
                && forall j :: 0 <= j < i ==> rows[j].agreement in known
  }

  lemma BindingOkIff(names: map<nat, string>, rows: seq<MemberRow>)
    ensures Each(BindAgreement(names), rows).Ok? <==> forall i :: 0 <= i < |rows| ==> rows[i].agreement in names
    ensures Each(BindAgreement(names), rows).Err? ==> BindingComplaint(rows, names.Keys, Each(BindAgreement(names), rows).error)
  {
    hide Each;
    EachOkIff(BindAgreement(names), rows);
    forall i | 0 <= i < |rows| ensures BindAgreement(names)(rows[i]).Ok? <==> rows[i].agreement in names {
    }
  }

  /** `e` names the first row whose contact is not known. */
  ghost predicate WindowComplaint(rows: seq<WindowRow>, known: set<nat>, e: RuleError) {
    exists i :: 0 <= i < |rows| && rows[i].contact !in known && e == NoMember(rows[i].contact)
                && forall j :: 0 <= j < i ==> rows[j].contact in known
  }

  lemma WindowsOkIff(names: map<nat, string>, rows: seq<WindowRow>)
    ensures Each(RenameWindow(names), rows).Ok? <==> forall i :: 0 <= i < |rows| ==> rows[i].contact in names
    ensures Each(RenameWindow(names), rows).Err? ==> WindowComplaint(rows, names.Keys, Each(RenameWindow(names), rows).error)
  {
    hide Each;
    EachOkIff(RenameWindow(names), rows);
    forall i | 0 <= i < |rows| ensures RenameWindow(names)(rows[i]).Ok? <==> rows[i].contact in names {
    }
  }

  lemma SameContacts(names: map<nat, string>, rows: seq<MemberRow>, out: seq<MemberRow>, c: nat)
    requires Members(names, rows) == Ok(out)
    ensures HasRow(out, c) <==> HasRow(rows, c)
  {
    hide Each, RealOrder;
    var bound := Each(BindAgreement(names), rows).value;
    EachIs(BindAgreement(names), rows, bound);
    forall i | 0 <= i < |rows| ensures out[i].contact == rows[i].contact {
      assert BindAgreement(names)(rows[i]) == Ok(bound[i]);
    }
  }

  lemma {:induction false} EachOkIff<A, B>(f: A -> Result<B, RuleError>, s: seq<A>)
    ensures Each(f, s).Ok? <==> forall i :: 0 <= i < |s| ==> f(s[i]).Ok?
    ensures Each(f, s).Err? ==>
              exists i :: 0 <= i < |s| && f(s[i]).Err? && f(s[i]).error == Each(f, s).error && forall j :: 0 <= j < i ==> f(s[j]).Ok?
  {
    if s != [] {
      var n := |s| - 1;
      EachOkIff(f, s[..n]);
      assert forall i :: 0 <= i < n ==> s[..n][i] == s[i];
      if Each(f, s[..n]).Err? {
        var i :| 0 <= i < |s[..n]| && f(s[..n][i]).Err? && f(s[..n][i]).error == Each(f, s[..n]).error
                 && forall j :: 0 <= j < i ==> f(s[..n][j]).Ok?;
        assert f(s[i]).Err? && f(s[i]).error == Each(f, s).error;
      }
    }
  }

  lemma {:induction false} TaskNamesOkIff(rules: Rules, functions: map<nat, string>, tasks: seq<TaskRow>)
    ensures TaskNames(rules, functions, tasks).Ok? <==>
              forall i :: 0 <= i < |tasks| ==> NameTask(rules, functions, tasks[..i], tasks[i]).Ok?
    ensures TaskNames(rules, functions, tasks).Err? ==>
              exists i :: TaskComplaint(rules, functions, tasks, i, TaskNames(rules, functions, tasks).error)
  {
    hide NameTask;
    if tasks != [] {
      var n := |tasks| - 1;
      var front := tasks[..n];
      forall i | 0 <= i < n ensures front[..i] == tasks[..i] && front[i] == tasks[i] {
      }
      TaskNamesOkIff(rules, functions, front);
      if TaskNames(rules, functions, front).Err? {
        var i :| TaskComplaint(rules, functions, front, i, TaskNames(rules, functions, front).error);
        assert front[..i] == tasks[..i];
        assert TaskComplaint(rules, functions, tasks, i, TaskNames(rules, functions, tasks).error);
      } else if NameTask(rules, functions, front, tasks[n]).Err? {
        assert TaskComplaint(rules, functions, tasks, n, TaskNames(rules, functions, tasks).error);
      }
    }
  }

  /** Task `i` is the first that cannot be named, and `e` says why. */
  ghost predicate TaskComplaint(rules: Rules, functions: map<nat, string>, tasks: seq<TaskRow>, i: int, e: RuleError) {
    && 0 <= i < |tasks| && NameTask(rules, functions, tasks[..i], tasks[i]) == Err(e)
    && forall j :: 0 <= j < i ==> NameTask(rules, functions, tasks[..j], tasks[j]).Ok?
  }

  /**
   What a refusal names, table by table in the order they are rewritten: the first area,
   agreement or task without its rule, too many members, then the first member whose agreement,
   and the first window whose contact, has no row.
   */
  lemma RefusalNamesTheFirstMissing(rules: Rules, p: Payload)
    requires Anonymised(rules, p).Err?
    ensures var e := Anonymised(rules, p).error;
            var functions := FunctionNames(p.functions);
            var agreements := set i | 0 <= i < |p.agreements| :: p.agreements[i].id;
            var contacts := set i | 0 <= i < |p.members| :: p.members[i].contact;
            if exists i :: 0 <= i < |p.areas| && p.areas[i].id !in rules.areas
            then AreaComplaint(p.areas, rules.areas.Keys, e)
            else if exists i :: 0 <= i < |p.agreements| && p.agreements[i].id !in rules.agreements
            then AgreementComplaint(p.agreements, rules.agreements.Keys, e)
            else if exists i :: 0 <= i < |p.tasks| && NameTask(rules, functions, p.tasks[..i], p.tasks[i]).Err?
            then exists i :: TaskComplaint(rules, functions, p.tasks, i, e)
            else if |RealOrder(p.members)| > 10 then e == TooManyMembers
            else if exists i :: 0 <= i < |p.members| && p.members[i].agreement !in agreements
            then BindingComplaint(p.members, agreements, e)
            else if exists i :: 0 <= i < |p.rosters| && p.rosters[i].contact !in contacts
            then WindowComplaint(p.rosters, contacts, e)
            else WindowComplaint(p.availability, contacts, e)
  {
    hide Each, TaskNames, RealOrder, FunctionNames, AgreementNames, MemberNames, NameTask, HasRow, RenameMembers,
         AreaComplaint, AgreementComplaint, TaskComplaint, BindingComplaint, WindowComplaint;
    AreasOkIff(rules, p.areas);
    AgreementsOkIff(rules, p.agreements);
    TaskNamesOkIff(rules, FunctionNames(p.functions), p.tasks);
    if Each(RenameAgreement(rules), p.agreements).Ok? {
      var names := AgreementNames(Each(RenameAgreement(rules), p.agreements).value);
      BindingOkIff(names, p.members);
      KnownAgreements(rules, p);
      if Members(names, p.members).Ok? {
        var members := MemberNames(Members(names, p.members).value);
        KnownContacts(names, p.members);
        WindowsOkIff(members, p.rosters);
        WindowsOkIff(members, p.availability);
      }
    }
  }

  lemma KnownAgreements(rules: Rules, p: Payload)
    requires Each(RenameAgreement(rules), p.agreements).Ok?
    ensures AgreementNames(Each(RenameAgreement(rules), p.agreements).value).Keys
         == set i | 0 <= i < |p.agreements| :: p.agreements[i].id
  {
    hide Each, AgreementNames;
    var out := Each(RenameAgreement(rules), p.agreements).value;
    forall id ensures id in AgreementNames(out) <==> exists i :: 0 <= i < |p.agreements| && p.agreements[i].id == id {
      AgreementNameIs(rules, p.agreements, out, id);
    }
  }

  lemma KnownContacts(names: map<nat, string>, rows: seq<MemberRow>)
    requires Members(names, rows).Ok?
    ensures MemberNames(Members(names, rows).value).Keys == set i | 0 <= i < |rows| :: rows[i].contact
  {
    hide Members, MemberNames;
    var out := Members(names, rows).value;
    forall c ensures c in MemberNames(out) <==> exists i :: 0 <= i < |rows| && rows[i].contact == c {
      MemberNameIs(out, c);
      SameContacts(names, rows, out, c);
    }
  }

  /** A task name spelled out: area, duty, activity, the area's initial and the task's place in its area; or what is missing. */
  lemma TaskNameIs(rules: Rules, functions: map<nat, string>, before: seq<TaskRow>, t: TaskRow)
    ensures var r := NameTask(rules, functions, before, t);
            && (r == Err(NoAreaRule(t.area)) <==> t.area !in rules.areas)
            && (r == Err(NoFunction(t.function_)) <==> t.area in rules.areas && t.function_ !in functions)
            && (r.Err? && r.error.NoLabel? <==>
                  t.area in rules.areas && t.function_ in functions && functions[t.function_] !in rules.labels)
            && (r.Err? && r.error.NoLabel? ==> r.error.name == functions[t.function_])
            && (r == Err(EmptyAreaName) <==>
                  t.area in rules.areas && t.function_ in functions && functions[t.function_] in rules.labels
                  && rules.areas[t.area] == "")
            && (r.Ok? ==>
                  && t.area in rules.areas && t.function_ in functions && functions[t.function_] in rules.labels
                  && var area, rule := rules.areas[t.area], rules.labels[functions[t.function_]];
                  && area != ""
                  && r.value == area + " " + rule.0 + " | " + rule.1 + " " + [area[0]]
                                + TwoDigits(|SameArea(rules, before, area)| + 1))
  {
    hide TwoDigits;
    if t.area in rules.areas {
      OrdinalCounts(rules, before, rules.areas[t.area], SameArea(rules, before, rules.areas[t.area]));
    }
  }

  /** Earlier tasks in areas of that name, by position. */
  ghost function SameArea(rules: Rules, tasks: seq<TaskRow>, area: string): set<nat> {
    set i: nat | i < |tasks| && tasks[i].area in rules.areas && rules.areas[tasks[i].area] == area
  }

  lemma {:induction false} OrdinalCounts(rules: Rules, tasks: seq<TaskRow>, area: string, which: set<nat>)
    requires forall i: nat :: i in which <==> i < |tasks| && tasks[i].area in rules.areas && rules.areas[tasks[i].area] == area
    ensures Ordinal(rules, tasks, area) == |which|
  {
    if tasks == [] {
      assert which == {};
    } else {
      var n: nat := |tasks| - 1;
      var front := tasks[..n];
      forall i: nat
        ensures i in which - {n} <==> i < |front| && front[i].area in rules.areas && rules.areas[front[i].area] == area
      {
      }
      OrdinalCounts(rules, front, area, which - {n});
      if n in which {
        assert which == which - {n} + {n};
      } else {
        assert which == which - {n};
      }
    }
  }

  /** A function id stands for the last row that declares it. */
  lemma {:induction false} FunctionNameIs(rows: seq<FunctionRow>, id: nat)
    ensures id in FunctionNames(rows) <==> exists i :: 0 <= i < |rows| && rows[i].id == id
    ensures id in FunctionNames(rows) ==>
              exists i :: 0 <= i < |rows| && rows[i].id == id && FunctionNames(rows)[id] == rows[i].name
                          && forall j :: i < j < |rows| ==> rows[j].id != id
  {
    if rows != [] {
      var n := |rows| - 1;
      var front := rows[..n];
      FunctionNameIs(front, id);
      assert forall i :: 0 <= i < n ==> front[i] == rows[i];
      if rows[n].id != id && id in FunctionNames(front) {
        var i :| 0 <= i < |front| && front[i].id == id && FunctionNames(front)[id] == front[i].name
                 && forall j :: i < j < |front| ==> front[j].id != id;
        assert rows[i].id == id && FunctionNames(rows)[id] == rows[i].name;
      }
    }
  }

  /** An ordinal is written with two digits up to ninety-nine. */
  lemma TwoDigitsAre(n: nat)
    requires n < 100
    ensures TwoDigits(n) == [Digit(n / 10), Digit(n % 10)]
  {
    if n < 10 {
      assert n / 10 == 0 && n % 10 == n;
    } else {
      assert Decimal(n / 10) == [Digit(n / 10)];
    }
  }
}
