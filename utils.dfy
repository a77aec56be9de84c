/** Object-to-row resolution (app/utils.py): snake-casing a class name and finding the stock
    row that describes a furniture object. */
module Utils {
  import opened Py
  import opened Text
  import opened Enums
  import opened Inventory
  import opened Furnitures

  // ---------------------------------------------------------------------------------------
  // transform_pascal_to_snake

  /** `re.sub(r"([a-z])([A-Z])", r"\1_\2", text)`: the scan runs left to right and resumes after
      each match, so a matched pair is rewritten and the scan continues after its upper-case
      letter. */
  function InsertUnderscores(s: string): (r: string)
    ensures |r| >= |s|
    decreases |s|
  {
    if |s| >= 2 && IsLower(s[0]) && IsUpper(s[1]) then [s[0], '_', s[1]] + InsertUnderscores(s[2..])
    else if s == [] then []
    else [s[0]] + InsertUnderscores(s[1..])
  }

  /** Reference definition: an underscore goes into every boundary between a lower-case letter
      and an upper-case letter that immediately follows it. */
  function SplitAtCaseBoundaries(s: string): string
    decreases |s|
  {
    if |s| <= 1 then s
    else [s[0]] + (if IsLower(s[0]) && IsUpper(s[1]) then "_" else "") + SplitAtCaseBoundaries(s[1..])
  }

  /** The substitution inserts an underscore at exactly the case boundaries: a match never
      overlaps the next one, because the upper-case letter it ends with cannot start a match. */
  lemma {:induction false} InsertUnderscoresAtBoundaries(s: string)
    ensures InsertUnderscores(s) == SplitAtCaseBoundaries(s)
    decreases |s|
  {
    if |s| >= 2 && IsLower(s[0]) && IsUpper(s[1]) {
      var t := s[1..];
      InsertUnderscoresAtBoundaries(s[2..]);
      SplitAfterUpper(t);
      assert t[1..] == s[2..];
      assert [s[0], '_', s[1]] + InsertUnderscores(s[2..]) == [s[0]] + "_" + ([s[1]] + SplitAtCaseBoundaries(s[2..]));
    } else if |s| >= 2 {
      InsertUnderscoresAtBoundaries(s[1..]);
      assert [s[0]] + "" + SplitAtCaseBoundaries(s[1..]) == [s[0]] + InsertUnderscores(s[1..]);
    } else if |s| == 1 {
      assert s[1..] == [];
      assert [s[0]] + InsertUnderscores(s[1..]) == s;
    }
  }

  /** A string that starts with an upper-case letter has no boundary in front of its second
      letter. */
  lemma SplitAfterUpper(t: string)
    requires |t| >= 1 && IsUpper(t[0])
    ensures SplitAtCaseBoundaries(t) == [t[0]] + SplitAtCaseBoundaries(t[1..])
  {
    if |t| == 1 {
      assert t[1..] == [];
      assert t == [t[0]];
    }
  }

  /** The string with every underscore removed. */
  function DropUnderscores(s: string): string
  {
    if s == [] then [] else (if s[0] == '_' then [] else [s[0]]) + DropUnderscores(s[1..])
  }

  lemma {:induction false} DropUnderscoresAppend(a: string, b: string)
    ensures DropUnderscores(a + b) == DropUnderscores(a) + DropUnderscores(b)
  {
    if a == [] {
      assert a + b == b;
    } else {
      assert (a + b)[0] == a[0];
      assert (a + b)[1..] == a[1..] + b;
      DropUnderscoresAppend(a[1..], b);
    }
  }

  /** Removing the underscores the substitution inserted gives the input back, whenever the input
      had none of its own. */
  lemma {:induction false} InsertUnderscoresRoundTrip(s: string)
    requires forall i :: 0 <= i < |s| ==> s[i] != '_'
    ensures DropUnderscores(InsertUnderscores(s)) == s
    decreases |s|
  {
    if |s| >= 2 && IsLower(s[0]) && IsUpper(s[1]) {
      InsertUnderscoresRoundTrip(s[2..]);
      DropUnderscoresAppend([s[0], '_', s[1]], InsertUnderscores(s[2..]));
      var m := [s[0], '_', s[1]];
      assert m[1..] == ['_', s[1]] && m[1..][1..] == [s[1]] && [s[1]][1..] == [];
      assert DropUnderscores([s[1]]) == [s[1]];
      assert DropUnderscores(['_', s[1]]) == [s[1]];
      assert DropUnderscores(m) == [s[0], s[1]];
      assert s == [s[0], s[1]] + s[2..];
    } else if s != [] {
      InsertUnderscoresRoundTrip(s[1..]);
      DropUnderscoresAppend([s[0]], InsertUnderscores(s[1..]));
      assert [s[0]][1..] == [];
      assert DropUnderscores([s[0]]) == [s[0]];
      assert s == [s[0]] + s[1..];
    }
  }

  /** A string with no lower-case letter has no match, so the substitution leaves it alone. */
  lemma {:induction false} InsertUnderscoresOfNoLower(s: string)
    requires NoLower(s)
    ensures InsertUnderscores(s) == s
    decreases |s|
  {
    if s != [] {
      assert NoLower(s[1..]);
      InsertUnderscoresOfNoLower(s[1..]);
    }
  }

  /** `transform_pascal_to_snake(text)` */
  function PascalToSnake(s: string): (r: string)
    ensures NoLower(r)
  {
    var t := Upper(InsertUnderscores(s));
    UpperHasNoLower(InsertUnderscores(s));
    t
  }

  /** Snake-casing an already snake-cased name changes nothing. */
  lemma PascalToSnakeIdempotent(s: string)
    ensures PascalToSnake(PascalToSnake(s)) == PascalToSnake(s)
  {
    var t := PascalToSnake(s);
    InsertUnderscoresOfNoLower(t);
    UpperOfNoLower(t);
  }

  /** A word: one letter followed by lower-case letters only. */
  predicate IsWord(w: string)
  {
    |w| >= 1 && forall i :: 1 <= i < |w| ==> IsLower(w[i])
  }

  /** Inside a word the substitution finds no match. */
  lemma {:induction false} InsertUnderscoresInWord(w: string)
    requires forall i :: 0 <= i < |w| ==> !IsUpper(w[i])
    ensures InsertUnderscores(w) == w
    decreases |w|
  {
    if |w| >= 1 {
      InsertUnderscoresInWord(w[1..]);
    }
  }

  /** A word copied in front of a string that does not start with an upper-case letter. */
  lemma {:induction false} InsertUnderscoresAfterWord(p: string, s: string)
    requires forall i :: 1 <= i < |p| ==> IsLower(p[i])
    requires p != [] && s != [] ==> !IsUpper(s[0])
    ensures InsertUnderscores(p + s) == p + InsertUnderscores(s)
    decreases |p|
  {
    if p != [] {
      var q := p + s;
      assert q[0] == p[0];
      assert |q| >= 2 ==> q[1] == if |p| >= 2 then p[1] else s[0];
      assert q[1..] == p[1..] + s;
      InsertUnderscoresAfterWord(p[1..], s);
      assert InsertUnderscores(q) == [p[0]] + InsertUnderscores(q[1..]);
      assert p == [p[0]] + p[1..];
      assert [p[0]] + (p[1..] + InsertUnderscores(s)) == p + InsertUnderscores(s);
    } else {
      assert p + s == s;
    }
  }

  /** Two words glued together are split by one underscore: `AbcDef` becomes `Abc_Def`. */
  lemma TwoWords(a: string, b: string)
    requires IsWord(a) && |a| >= 2 && IsWord(b) && IsUpper(b[0])
    ensures InsertUnderscores(a + b) == a + "_" + b
  {
    var n := |a| - 1;
    var p := a[..n];
    var rest := [a[n]] + b;
    assert a + b == p + rest;
    InsertUnderscoresAfterWord(p, rest);
    assert rest[2..] == b[1..];
    InsertUnderscoresInWord(b[1..]);
    assert InsertUnderscores(rest) == [a[n], '_', b[0]] + b[1..];
    assert a == p + [a[n]];
    assert b == [b[0]] + b[1..];
  }

  lemma {:induction false} UpperAppend(a: string, b: string)
    ensures Upper(a + b) == Upper(a) + Upper(b)
  {
    assert forall i :: 0 <= i < |a + b| ==> Upper(a + b)[i] == (Upper(a) + Upper(b))[i];
  }

  /** The snake-cased name of a two-word class name. */
  lemma TwoWordsSnake(a: string, b: string)
    requires IsWord(a) && |a| >= 2 && IsWord(b) && IsUpper(b[0])
    ensures PascalToSnake(a + b) == Upper(a) + "_" + Upper(b)
  {
    TwoWords(a, b);
    UpperAppend(a + "_", b);
    UpperAppend(a, "_");
    assert Upper("_") == "_";
  }

  /** `PascalToSnake` of a two-word name, with the literal facts supplied by the caller. */
  lemma SnakeOfTwoWords(c: string, a: string, b: string, ua: string, ub: string, r: string)
    requires c == a + b && IsWord(a) && |a| >= 2 && IsWord(b) && IsUpper(b[0])
    requires Upper(a) == ua && Upper(b) == ub && ua + "_" + ub == r
    ensures PascalToSnake(c) == r
  {
    TwoWordsSnake(a, b);
  }

  lemma DiningTableSnake()
    ensures PascalToSnake("DiningTable") == "DINING_TABLE"
  {
    DiningTableSpelling();
    UpperDining();
    UpperTable();
    SnakeOfTwoWords("DiningTable", "Dining", "Table", "DINING", "TABLE", "DINING_TABLE");
  }

  lemma DiningTableSpelling()
    ensures "DiningTable" == "Dining" + "Table" && "DINING" + "_" + "TABLE" == "DINING_TABLE"
  {
  }

  lemma WorkDeskSnake()
    ensures PascalToSnake("WorkDesk") == "WORK_DESK"
  {
    WorkDeskSpelling();
    UpperWork();
    UpperDesk();
    SnakeOfTwoWords("WorkDesk", "Work", "Desk", "WORK", "DESK", "WORK_DESK");
  }

  lemma WorkDeskSpelling()
    ensures "WorkDesk" == "Work" + "Desk" && "WORK" + "_" + "DESK" == "WORK_DESK"
  {
  }

  lemma CoffeeTableSnake()
    ensures PascalToSnake("CoffeeTable") == "COFFEE_TABLE"
  {
    CoffeeTableSpelling();
    UpperCoffee();
    UpperTable();
    SnakeOfTwoWords("CoffeeTable", "Coffee", "Table", "COFFEE", "TABLE", "COFFEE_TABLE");
  }

  lemma CoffeeTableSpelling()
    ensures "CoffeeTable" == "Coffee" + "Table" && "COFFEE" + "_" + "TABLE" == "COFFEE_TABLE"
  {
  }

  lemma WorkChairSnake()
    ensures PascalToSnake("WorkChair") == "WORK_CHAIR"
  {
    WorkChairSpelling();
    UpperWork();
    UpperChair();
    SnakeOfTwoWords("WorkChair", "Work", "Chair", "WORK", "CHAIR", "WORK_CHAIR");
  }

  lemma WorkChairSpelling()
    ensures "WorkChair" == "Work" + "Chair" && "WORK" + "_" + "CHAIR" == "WORK_CHAIR"
  {
  }

  lemma GamingChairSnake()
    ensures PascalToSnake("GamingChair") == "GAMING_CHAIR"
  {
    GamingChairSpelling();
    UpperGaming();
    UpperChair();
    SnakeOfTwoWords("GamingChair", "Gaming", "Chair", "GAMING", "CHAIR", "GAMING_CHAIR");
  }

  lemma GamingChairSpelling()
    ensures "GamingChair" == "Gaming" + "Chair" && "GAMING" + "_" + "CHAIR" == "GAMING_CHAIR"
  {
  }

  lemma UpperChair()
    ensures Upper("Chair") == "CHAIR" && IsWord("Chair") && |"Chair"| >= 2 && IsUpper("Chair"[0])
  {
  }

  lemma UpperCoffee()
    ensures Upper("Coffee") == "COFFEE" && IsWord("Coffee") && |"Coffee"| >= 2 && IsUpper("Coffee"[0])
  {
  }

  lemma UpperDesk()
    ensures Upper("Desk") == "DESK" && IsWord("Desk") && |"Desk"| >= 2 && IsUpper("Desk"[0])
  {
  }

  lemma UpperDining()
    ensures Upper("Dining") == "DINING" && IsWord("Dining") && |"Dining"| >= 2 && IsUpper("Dining"[0])
  {
  }

  lemma UpperGaming()
    ensures Upper("Gaming") == "GAMING" && IsWord("Gaming") && |"Gaming"| >= 2 && IsUpper("Gaming"[0])
  {
  }

  lemma UpperTable()
    ensures Upper("Table") == "TABLE" && IsWord("Table") && |"Table"| >= 2 && IsUpper("Table"[0])
  {
  }

  lemma UpperWork()
    ensures Upper("Work") == "WORK" && IsWord("Work") && |"Work"| >= 2 && IsUpper("Work"[0])
  {
  }

  /** The class names snake-case to the `FurnitureType` member names. */
  lemma ClassNameSnakeIsTypeName(k: FurnitureType)
    ensures PascalToSnake(ClassName(k)) == TypeName(k)
    ensures TypeByName(PascalToSnake(ClassName(k))) == Some(k)
  {
    ClassNameSnake(k);
    TypeNameRoundTrip(k);
  }

  lemma ClassNameSnake(k: FurnitureType)
    ensures PascalToSnake(ClassName(k)) == TypeName(k)
  {
    match k
    case DiningTable => DiningTableSnake();
    case WorkDesk => WorkDeskSnake();
    case CoffeeTable => CoffeeTableSnake();
    case WorkChair => WorkChairSnake();
    case GamingChair => GamingChairSnake();
  }

  // ---------------------------------------------------------------------------------------
  // get_index_furniture_by_values

  /** The filter list for an object, with the type clause comparing the column with
      `typeValue`: type, colour and the three dimensions always; then `is_adjustable` and
      `has_armrest` for an object that has them (a chair) and `material` for one that has it
      (a table). */
  function ItemFiltersWith(f: Furniture, typeValue: Value): seq<Filter>
  {
    var d := Dimensions(f.kind);
    var base := [Eq(FurnitureTypeColumn, typeValue), Eq(Color, PyStr(f.color)),
                 Eq(High, PyInt(d.high)), Eq(Depth, PyInt(d.depth)), Eq(Width, PyInt(d.width))];
    match f.extra
    case ChairAttrs(a, h) => base + [Eq(IsAdjustable, PyBool(a)), Eq(HasArmrest, PyBool(h))]
    case TableAttrs(m) => base + [Eq(Material, PyStr(m))]
  }

  /** The type clause compares the integer column with the member's value. */
  function TypeClauseValue(k: FurnitureType): Value
  {
    PyInt(TypeValue(k))
  }

  /** As written, the type clause compares the integer column with the snake-cased class name. */
  function TypeClauseValueAsWritten(k: FurnitureType): Value
  {
    PyStr(PascalToSnake(ClassName(k)))
  }

  /** The columns an object's filters mention: a table is never filtered on the chair columns
      and a chair never on material. */
  lemma ItemFilterColumns(f: Furniture, typeValue: Value)
    requires WellFormed(f)
    ensures IsTableKind(f.kind) <==>
      exists j :: 0 <= j < |ItemFiltersWith(f, typeValue)| && ItemFiltersWith(f, typeValue)[j].column == Material
    ensures !IsTableKind(f.kind) <==>
      exists j :: 0 <= j < |ItemFiltersWith(f, typeValue)| && ItemFiltersWith(f, typeValue)[j].column == IsAdjustable
    ensures !IsTableKind(f.kind) <==>
      exists j :: 0 <= j < |ItemFiltersWith(f, typeValue)| && ItemFiltersWith(f, typeValue)[j].column == HasArmrest
  {
    var fs := ItemFiltersWith(f, typeValue);
    assert fs[..5][0] == fs[0] && fs[..5][1] == fs[1] && fs[..5][2] == fs[2];
    assert fs[..5][3] == fs[3] && fs[..5][4] == fs[4];
    if f.extra.ChairAttrs? {
      assert fs[5..][0] == fs[5] && fs[5..][1] == fs[6];
      assert |fs| == 7;
    } else {
      assert fs[5..][0] == fs[5];
      assert |fs| == 6;
    }
  }

  /** The lookup with a given type clause: `None` for a `None` item or after an error (`fault`),
      otherwise the id of the first row that passes every filter, or `None` if none does. */
  function IndexOfItemWith(item: Option<Furniture>, typeValue: Value, rows: seq<Row>, fault: bool): (r: Option<int>)
    ensures item.None? || fault ==> r.None?
    ensures r.Some? ==>
      exists i :: (0 <= i < |rows| && rows[i].id == r.value &&
                   Matches(rows[i], ItemFiltersWith(item.value, typeValue)) &&
                   forall j :: 0 <= j < i ==> !Matches(rows[j], ItemFiltersWith(item.value, typeValue)))
    ensures r.None? && item.Some? && !fault ==>
      forall j :: 0 <= j < |rows| ==> !Matches(rows[j], ItemFiltersWith(item.value, typeValue))
  {
    if item.None? || fault then None
    else
      var fs := ItemFiltersWith(item.value, typeValue);
      match FirstWhere(rows, (x: Row) => Matches(x, fs))
      case None => None
      case Some(i) => Some(rows[i].id)
  }

  /** `get_index_furniture_by_values(item)`, with the type clause comparing the column with the
      member's value. */
  function IndexOfItem(item: Option<Furniture>, rows: seq<Row>, fault: bool): Option<int>
  {
    IndexOfItemWith(item, if item.Some? then TypeClauseValue(item.value.kind) else PyNone, rows, fault)
  }

  /** As written: the type clause compares the integer column with a string, so no row passes. */
  function IndexOfItemAsWritten(item: Option<Furniture>, rows: seq<Row>, fault: bool): Option<int>
  {
    IndexOfItemWith(item, if item.Some? then TypeClauseValueAsWritten(item.value.kind) else PyNone, rows, fault)
  }

  /** The row that describes an object on every filtered column. */
  predicate Describes(r: Row, f: Furniture)
  {
    r.furnitureType == TypeValue(f.kind) && r.color == f.color &&
    r.high == Dimensions(f.kind).high && r.depth == Dimensions(f.kind).depth &&
    r.width == Dimensions(f.kind).width &&
    match f.extra
    case ChairAttrs(a, h) => r.isAdjustable == a && r.hasArmrest == h
    case TableAttrs(m) => r.material == m
  }

  /** A row passes an object's filters exactly when it describes the object. */
  lemma MatchesIffDescribes(r: Row, f: Furniture)
    ensures Matches(r, ItemFiltersWith(f, TypeClauseValue(f.kind))) <==> Describes(r, f)
  {
    var fs := ItemFiltersWith(f, TypeClauseValue(f.kind));
    assert fs[..5][0] == fs[0] && fs[..5][1] == fs[1] && fs[..5][2] == fs[2];
    assert fs[..5][3] == fs[3] && fs[..5][4] == fs[4];
    if f.extra.ChairAttrs? {
      assert fs[5..][0] == fs[5] && fs[5..][1] == fs[6];
    } else {
      assert fs[5..][0] == fs[5];
    }
  }

  /** The lookup finds the first row that describes the object, and `None` only when no row
      does. */
  lemma IndexOfItemFindsDescribingRow(f: Furniture, rows: seq<Row>)
    ensures IndexOfItem(Some(f), rows, false).Some? <==> exists j :: 0 <= j < |rows| && Describes(rows[j], f)
    ensures IndexOfItem(Some(f), rows, false).Some? ==>
      exists i :: (0 <= i < |rows| && rows[i].id == IndexOfItem(Some(f), rows, false).value &&
                   Describes(rows[i], f) && forall j :: 0 <= j < i ==> !Describes(rows[j], f))
  {
    forall j | 0 <= j < |rows|
      ensures Matches(rows[j], ItemFiltersWith(f, TypeClauseValue(f.kind))) <==> Describes(rows[j], f)
    {
      MatchesIffDescribes(rows[j], f);
    }
  }

  /** As written, no row ever passes the filters: the lookup returns `None` even when a row
      describes the object. */
  lemma IndexOfItemAsWrittenNeverFinds(item: Option<Furniture>, rows: seq<Row>, fault: bool)
    ensures IndexOfItemAsWritten(item, rows, fault).None?
  {
    if item.Some? && !fault {
      var fs := ItemFiltersWith(item.value, TypeClauseValueAsWritten(item.value.kind));
      forall j | 0 <= j < |rows|
        ensures !Matches(rows[j], fs)
      {
        assert fs[..5][0] == fs[0];
        assert Get(rows[j], fs[0].column) != fs[0].value;
      }
    }
  }

  /** The corrected type clause is the snake-cased class name looked up among the members. */
  lemma TypeClauseFromSnakeName(k: FurnitureType)
    ensures TypeByName(PascalToSnake(ClassName(k))).Some?
    ensures TypeClauseValue(k) == PyInt(TypeValue(TypeByName(PascalToSnake(ClassName(k))).value))
  {
    ClassNameSnakeIsTypeName(k);
  }
}
