/** What the two category passes of the import do to the hierarchy, whatever the file holds. */
module ImportCategoryProofs {
  import opened Prelude
  import opened TextRules
  import opened BackupImport
  import Ancestry

  /** The parent links of a list of rows. */
  function Links(cs: seq<Category>): Ancestry.Parents {
    if cs == [] then map[] else Links(cs[..|cs| - 1])[cs[|cs| - 1].id := cs[|cs| - 1].parentId]
  }

  /** Primary and foreign keys: ids are below the counter, and so is every parent. */
  ghost predicate CategoriesFit(cs: seq<Category>, next: Id) {
    && (forall i :: 0 <= i < |cs| ==> cs[i].id < next && (cs[i].parentId.Some? ==> cs[i].parentId.value < next))
    && (forall i, j :: 0 <= i < j < |cs| ==> cs[i].id != cs[j].id)
  }

  lemma {:induction false} LinksBelow(cs: seq<Category>, next: Id)
    requires CategoriesFit(cs, next)
    ensures forall x :: x in Links(cs) ==> x < next && (Links(cs)[x].Some? ==> Links(cs)[x].value < next)
    decreases |cs|
  {
    if cs != [] {
      LinksBelow(cs[..|cs| - 1], next);
    }
  }

  lemma {:induction false} KeyMapBelow(text: Text, cs: seq<Category>, next: Id)
    requires CategoriesFit(cs, next)
    ensures forall key :: key in KeyMap(text, cs) ==> KeyMap(text, cs)[key] < next
    decreases |cs|
  {
    if cs != [] {
      KeyMapBelow(text, cs[..|cs| - 1], next);
    }
  }

  // ---------------------------------------------------------------- no cycle

  ghost predicate Sound(s: CategoryState) {
    && CategoriesFit(s.categories, s.next)
    && Ancestry.Acyclic(Links(s.categories))
    && (forall x :: x in s.idMap ==> s.idMap[x] < s.next)
    && (forall key :: key in s.byKey ==> s.byKey[key] < s.next)
  }

  lemma StepSound(text: Text, s: CategoryState, c: FileCategory)
    requires Sound(s) && ImportCategory(text, s, c).Ok?
    ensures Sound(ImportCategory(text, s, c).value)
  {
    hide Ancestry.Acyclic, CategoryTaken, CategoryKey, Lawful, Links;
    var key := CategoryKey(text, c.name, c.entryType);
    if key !in s.byKey {
      var t := ImportCategory(text, s, c).value;
      var parent := MappedParent(c, s.idMap);
      LinksBelow(s.categories, s.next);
      LinksGrow(s.categories, t.categories[|s.categories|]);
      Ancestry.NewLeafAcyclic(Links(s.categories), s.next, parent);
    }
  }

  lemma LinksGrow(cs: seq<Category>, c: Category)
    ensures Links(cs + [c]) == Links(cs)[c.id := c.parentId]
  {
    assert (cs + [c])[..|cs|] == cs;
  }

  lemma {:induction false} LoopSound(text: Text, start: CategoryState, passes: seq<FileCategory>, n: nat)
    requires Sound(start) && n <= |passes| && CategoriesAfter(text, start, passes, n).Ok?
    ensures Sound(CategoriesAfter(text, start, passes, n).value)
    decreases n
  {
    hide Sound, ImportCategory, Lawful;
    if n > 0 {
      LoopSound(text, start, passes, n - 1);
      StepSound(text, CategoriesAfter(text, start, passes, n - 1).value, passes[n - 1]);
    }
  }

  /** No file, however its parent ids point, makes an acyclic hierarchy cyclic. */
  lemma ImportKeepsAcyclic(text: Text, categories: seq<Category>, next: Id, file: File)
    requires CategoriesFit(categories, next) && Ancestry.Acyclic(Links(categories))
    ensures var r := CategoriesAfter(text, CategoriesAtStart(text, categories, next), Passes(file), |Passes(file)|);
      r.Ok? ==> CategoriesFit(r.value.categories, r.value.next) && Ancestry.Acyclic(Links(r.value.categories))
  {
    var start := CategoriesAtStart(text, categories, next);
    KeyMapBelow(text, categories, next);
    if CategoriesAfter(text, start, Passes(file), |Passes(file)|).Ok? {
      LoopSound(text, start, Passes(file), |Passes(file)|);
    }
  }

  // ---------------------------------------------------------------- images

  ghost predicate IsKeyOf(text: Text, cs: seq<Category>, id: Id, key: string) {
    exists i :: 0 <= i < |cs| && cs[i].id == id && CategoryKey(text, cs[i].name, cs[i].entryType) == key
  }

  lemma {:induction false} KeyMapHolds(text: Text, cs: seq<Category>)
    ensures forall key :: key in KeyMap(text, cs) ==> IsKeyOf(text, cs, KeyMap(text, cs)[key], key)
    decreases |cs|
  {
    hide CategoryKey, Lawful;
    if cs != [] {
      var before, last := cs[..|cs| - 1], cs[|cs| - 1];
      KeyMapHolds(text, before);
      forall key | key in KeyMap(text, cs) ensures IsKeyOf(text, cs, KeyMap(text, cs)[key], key) {
        if !last.isArchived && key == CategoryKey(text, last.name, last.entryType) {
          assert cs[|cs| - 1] == last;
        } else {
          var i :| 0 <= i < |before| && before[i].id == KeyMap(text, before)[key]
                   && CategoryKey(text, before[i].name, before[i].entryType) == key;
          assert cs[i] == before[i];
        }
      }
    }
  }

  /** File id x is mapped to a row with the key of a file category of that id. */
  ghost predicate SharesKey(text: Text, passes: seq<FileCategory>, n: nat, s: CategoryState, x: string)
    requires n <= |passes| && x in s.idMap
  {
    exists m: nat :: m < n && passes[m].id == x
                     && IsKeyOf(text, s.categories, s.idMap[x], CategoryKey(text, passes[m].name, passes[m].entryType))
  }

  /** Keys lead to rows with the key, and file ids to rows with the key of a file category of that id. */
  ghost predicate Faithful(text: Text, passes: seq<FileCategory>, n: nat, s: CategoryState)
    requires n <= |passes|
  {
    && (forall key :: key in s.byKey ==> IsKeyOf(text, s.categories, s.byKey[key], key))
    && (forall x :: x in s.idMap ==> SharesKey(text, passes, n, s, x))
  }

  lemma MoreRows(text: Text, cs: seq<Category>, row: Category, id: Id, key: string)
    requires IsKeyOf(text, cs, id, key)
    ensures IsKeyOf(text, cs + [row], id, key)
  {
    hide CategoryKey, Lawful;
    var i :| 0 <= i < |cs| && cs[i].id == id && CategoryKey(text, cs[i].name, cs[i].entryType) == key;
    assert (cs + [row])[i] == cs[i];
  }

  lemma NewRowKey(text: Text, cs: seq<Category>, row: Category, name: string)
    requires row.name == text.trim(name)
    ensures IsKeyOf(text, cs + [row], row.id, CategoryKey(text, name, row.entryType))
  {
    TrimmedKey(text, name);
    assert (cs + [row])[|cs|] == row;
  }

  lemma StepKeys(text: Text, passes: seq<FileCategory>, n: nat, s: CategoryState)
    requires 0 < n <= |passes| && Faithful(text, passes, n - 1, s)
    requires ImportCategory(text, s, passes[n - 1]).Ok?
    ensures var t := ImportCategory(text, s, passes[n - 1]).value;
      && (forall id: Id, key :: IsKeyOf(text, s.categories, id, key) ==> IsKeyOf(text, t.categories, id, key))
      && (forall key :: key in t.byKey ==> IsKeyOf(text, t.categories, t.byKey[key], key))
      && t.idMap == s.idMap[passes[n - 1].id := t.idMap[passes[n - 1].id]]
      && IsKeyOf(text, t.categories, t.idMap[passes[n - 1].id],
                 CategoryKey(text, passes[n - 1].name, passes[n - 1].entryType))
  {
    hide CategoryKey, Lawful, CategoryTaken, IsKeyOf;
    var c := passes[n - 1];
    var t := ImportCategory(text, s, c).value;
    if CategoryKey(text, c.name, c.entryType) !in s.byKey {
      var row := t.categories[|s.categories|];
      forall id: Id, key | IsKeyOf(text, s.categories, id, key) ensures IsKeyOf(text, t.categories, id, key) {
        MoreRows(text, s.categories, row, id, key);
      }
      NewRowKey(text, s.categories, row, c.name);
    }
  }

  lemma StepFaithful(text: Text, passes: seq<FileCategory>, n: nat, s: CategoryState)
    requires 0 < n <= |passes| && Faithful(text, passes, n - 1, s)
    requires ImportCategory(text, s, passes[n - 1]).Ok?
    ensures Faithful(text, passes, n, ImportCategory(text, s, passes[n - 1]).value)
  {
    StepKeys(text, passes, n, s);
    hide CategoryKey, Lawful, IsKeyOf, ImportCategory;
    var t := ImportCategory(text, s, passes[n - 1]).value;
    forall x | x in t.idMap
      ensures SharesKey(text, passes, n, t, x)
    {
      if x == passes[n - 1].id {
        assert n - 1 < n && passes[n - 1].id == x;
      } else {
        var m: nat :| m < n - 1 && passes[m].id == x
          && IsKeyOf(text, s.categories, s.idMap[x], CategoryKey(text, passes[m].name, passes[m].entryType));
        assert m < n;
      }
    }
  }

  /** Every mapped file category leads to a category with the same name, but for case and white space, and type. */
  lemma {:induction false} ImagesShareKeys(text: Text, categories: seq<Category>, next: Id, passes: seq<FileCategory>,
                                           n: nat)
    requires var start := CategoriesAtStart(text, categories, next);
      n <= |passes| && CategoriesAfter(text, start, passes, n).Ok?
    ensures Faithful(text, passes, n, CategoriesAfter(text, CategoriesAtStart(text, categories, next), passes, n).value)
    decreases n
  {
    hide CategoryKey, Lawful, IsKeyOf, ImportCategory;
    if n == 0 {
      KeyMapHolds(text, categories);
    } else {
      ImagesShareKeys(text, categories, next, passes, n - 1);
      hide Faithful;
      StepFaithful(text, passes, n,
                   CategoriesAfter(text, CategoriesAtStart(text, categories, next), passes, n - 1).value);
    }
  }

  // ---------------------------------------------------------------- parents of created rows

  /** File category n makes a new row: its key is neither in the account nor earlier in the file. */
  ghost predicate Makes(text: Text, start: CategoryState, passes: seq<FileCategory>, n: nat)
    requires n < |passes|
  {
    var key := CategoryKey(text, passes[n].name, passes[n].entryType);
    && key !in start.byKey
    && forall m: nat :: m < n ==> CategoryKey(text, passes[m].name, passes[m].entryType) != key
  }

  /** The id under which file category n is found after the import: that of the row with its key. */
  ghost predicate MapsByKey(text: Text, start: CategoryState, passes: seq<FileCategory>, n: nat, s: CategoryState)
    requires n <= |passes|
  {
    && (forall key :: key in s.byKey <==>
          key in start.byKey || exists m: nat :: m < n && CategoryKey(text, passes[m].name, passes[m].entryType) == key)
    && (forall key :: key in start.byKey ==> s.byKey[key] == start.byKey[key])
    && (forall m: nat :: m < n ==> passes[m].id in s.idMap)
    && (forall x :: x in s.idMap ==> exists m: nat :: m < n && passes[m].id == x)
  }

  /** A turn makes a row exactly when its key is not known yet. */
  lemma MakesIff(text: Text, start: CategoryState, passes: seq<FileCategory>, n: nat, s: CategoryState)
    requires n < |passes| && MapsByKey(text, start, passes, n, s)
    ensures Makes(text, start, passes, n) <==> CategoryKey(text, passes[n].name, passes[n].entryType) !in s.byKey
  {
    hide Lawful, CategoryKey;
  }

  lemma {:induction false} LoopMapsByKey(text: Text, start: CategoryState, passes: seq<FileCategory>, n: nat)
    requires start.idMap == map[]
    requires n <= |passes| && CategoriesAfter(text, start, passes, n).Ok?
    ensures MapsByKey(text, start, passes, n, CategoriesAfter(text, start, passes, n).value)
    decreases n
  {
    hide Lawful, CategoryKey, CategoryTaken;
    if n > 0 {
      LoopMapsByKey(text, start, passes, n - 1);
      var s := CategoriesAfter(text, start, passes, n - 1).value;
      StepMapsByKey(text, start, passes, n, s);
    }
  }

  lemma StepMapsByKey(text: Text, start: CategoryState, passes: seq<FileCategory>, n: nat, s: CategoryState)
    requires 0 < n <= |passes| && MapsByKey(text, start, passes, n - 1, s)
    requires ImportCategory(text, s, passes[n - 1]).Ok?
    ensures MapsByKey(text, start, passes, n, ImportCategory(text, s, passes[n - 1]).value)
  {
    hide Lawful, CategoryKey, CategoryTaken;
    var t := ImportCategory(text, s, passes[n - 1]).value;
    var c := passes[n - 1];
    var key := CategoryKey(text, c.name, c.entryType);
    assert t.byKey.Keys == s.byKey.Keys + {key};
    assert t.idMap.Keys == s.idMap.Keys + {c.id};
    assert n - 1 < n && passes[n - 1].id == c.id;
  }

  ghost predicate IdsDiffer(cs: seq<FileCategory>) {
    forall i, j :: 0 <= i < j < |cs| ==> cs[i].id != cs[j].id
  }

  function Image(idMap: map<string, Id>, id: string): Option<Id> {
    if id in idMap then Some(idMap[id]) else None
  }

  /** The parent that a row made from file category n should have: the image of a category met before. */
  ghost function ParentAt(passes: seq<FileCategory>, n: nat, idMap: map<string, Id>): Option<Id>
    requires n < |passes|
  {
    if !IsRoot(passes[n]) && exists m: nat :: m < n && passes[m].id == passes[n].parentId.value
    then Image(idMap, passes[n].parentId.value)
    else None
  }

  /** Row is the one made from file category n. */
  ghost predicate MadeAt(text: Text, passes: seq<FileCategory>, n: nat, idMap: map<string, Id>, row: Category)
    requires n < |passes|
  {
    var c := passes[n];
    && Image(idMap, c.id) == Some(row.id)
    && row == Category(row.id, false, text.trim(c.name), c.entryType, c.isArchived, ParentAt(passes, n, idMap))
  }

  ghost predicate HasRow(text: Text, passes: seq<FileCategory>, n: nat, s: CategoryState)
    requires n < |passes|
  {
    exists row :: row in s.categories && MadeAt(text, passes, n, s.idMap, row)
  }

  /** Every file category that makes a row has its row. */
  ghost predicate RowsAreMade(text: Text, start: CategoryState, passes: seq<FileCategory>, n: nat, s: CategoryState)
    requires n <= |passes|
  {
    forall m: nat :: m < n && Makes(text, start, passes, m) ==> HasRow(text, passes, m, s)
  }

  /** Mapping a later category changes nothing for a row that is made. */
  lemma RowStays(text: Text, passes: seq<FileCategory>, m: nat, n: nat, s: CategoryState, t: CategoryState)
    requires m < n < |passes| && IdsDiffer(passes) && HasRow(text, passes, m, s)
    requires passes[n].id in t.idMap && t.idMap == s.idMap[passes[n].id := t.idMap[passes[n].id]]
    requires forall row :: row in s.categories ==> row in t.categories
    ensures HasRow(text, passes, m, t)
  {
    hide Lawful;
    var row :| row in s.categories && MadeAt(text, passes, m, s.idMap, row);
    assert MadeAt(text, passes, m, t.idMap, row);
  }

  lemma NewRow(text: Text, start: CategoryState, passes: seq<FileCategory>, n: nat, s: CategoryState)
    requires n < |passes| && IdsDiffer(passes) && MapsByKey(text, start, passes, n, s)
    requires Makes(text, start, passes, n) && ImportCategory(text, s, passes[n]).Ok?
    ensures HasRow(text, passes, n, ImportCategory(text, s, passes[n]).value)
  {
    hide Lawful, CategoryKey, CategoryTaken;
    var c := passes[n];
    var t := ImportCategory(text, s, c).value;
    assert CategoryKey(text, c.name, c.entryType) !in s.byKey;
    var row := t.categories[|s.categories|];
    if !IsRoot(c) {
      var parent := c.parentId.value;
      assert parent in s.idMap <==> exists m: nat :: m < n && passes[m].id == parent;
      if m: nat :| m < n && passes[m].id == parent {
        assert passes[m].id != c.id;
        assert t.idMap[parent] == s.idMap[parent];
      }
    }
    assert MadeAt(text, passes, n, t.idMap, row);
  }

  /** One turn maps the id of the category, and at most adds rows. */
  lemma StepShape(text: Text, s: CategoryState, c: FileCategory)
    requires ImportCategory(text, s, c).Ok?
    ensures var t := ImportCategory(text, s, c).value;
      && c.id in t.idMap && t.idMap == s.idMap[c.id := t.idMap[c.id]]
      && (forall row :: row in s.categories ==> row in t.categories)
  {
    hide Lawful, CategoryKey, CategoryTaken;
  }

  lemma StepRowsAreMade(text: Text, start: CategoryState, passes: seq<FileCategory>, n: nat, s: CategoryState)
    requires n < |passes| && IdsDiffer(passes) && MapsByKey(text, start, passes, n, s)
    requires RowsAreMade(text, start, passes, n, s) && ImportCategory(text, s, passes[n]).Ok?
    ensures RowsAreMade(text, start, passes, n + 1, ImportCategory(text, s, passes[n]).value)
  {
    hide MapsByKey, Makes, ImportCategory, HasRow, Lawful, IdsDiffer;
    var t := ImportCategory(text, s, passes[n]).value;
    StepShape(text, s, passes[n]);
    forall m: nat | m < n + 1 && Makes(text, start, passes, m) ensures HasRow(text, passes, m, t) {
      if m < n {
        RowStays(text, passes, m, n, s, t);
      } else {
        NewRow(text, start, passes, n, s);
      }
    }
  }

  lemma {:induction false} LoopMakesRows(text: Text, start: CategoryState, passes: seq<FileCategory>, n: nat)
    requires start.idMap == map[] && IdsDiffer(passes)
    requires n <= |passes| && CategoriesAfter(text, start, passes, n).Ok?
    ensures RowsAreMade(text, start, passes, n, CategoriesAfter(text, start, passes, n).value)
    decreases n
  {
    hide MapsByKey, ImportCategory, HasRow, Lawful, IdsDiffer, Makes;
    if n > 0 {
      LoopMakesRows(text, start, passes, n - 1);
      LoopMapsByKey(text, start, passes, n - 1);
      StepRowsAreMade(text, start, passes, n - 1, CategoriesAfter(text, start, passes, n - 1).value);
    }
  }

  // ---------------------------------------------------------------- places in the file and in the passes

  /** Where the passes meet category k of the file. */
  function Place(cs: seq<FileCategory>, k: nat): nat
    requires k < |cs|
  {
    if IsRoot(cs[k]) then |Roots(cs[..k])| else |Roots(cs)| + |Children(cs[..k])|
  }

  lemma {:induction false} RootPlace(cs: seq<FileCategory>, k: nat)
    requires k < |cs|
    ensures Roots(cs[..k]) <= Roots(cs) && Children(cs[..k]) <= Children(cs)
    ensures IsRoot(cs[k]) ==> |Roots(cs[..k])| < |Roots(cs)| && Roots(cs)[|Roots(cs[..k])|] == cs[k]
    ensures !IsRoot(cs[k]) ==> |Children(cs[..k])| < |Children(cs)| && Children(cs)[|Children(cs[..k])|] == cs[k]
    decreases |cs|
  {
    if k < |cs| - 1 {
      var before := cs[..|cs| - 1];
      assert before[..k] == cs[..k];
      RootPlace(before, k);
    }
  }

  lemma PlaceHolds(file: File, k: nat)
    requires k < |file.categories|
    ensures Place(file.categories, k) < |Passes(file)|
    ensures Passes(file)[Place(file.categories, k)] == file.categories[k]
  {
    RootPlace(file.categories, k);
  }

  /** Roots are met first; among roots, and among children, the order of the file decides. */
  lemma PlaceOrder(cs: seq<FileCategory>, p: nat, k: nat)
    requires p < |cs| && k < |cs| && !IsRoot(cs[k])
    ensures Place(cs, p) < Place(cs, k) <==> IsRoot(cs[p]) || p < k
  {
    RootPlace(cs, p);
    RootPlace(cs, k);
    if !IsRoot(cs[p]) {
      if p < k {
        assert cs[..k][..p] == cs[..p];
        RootPlace(cs[..k], p);
      } else if k < p {
        assert cs[..p][..k] == cs[..k];
        RootPlace(cs[..p], k);
      }
    }
  }

  lemma {:induction false} EveryRootHasPlace(cs: seq<FileCategory>, i: nat)
    requires i < |Roots(cs)|
    ensures exists k: nat :: k < |cs| && IsRoot(cs[k]) && |Roots(cs[..k])| == i
    decreases |cs|
  {
    var last, before := |cs| - 1, cs[..|cs| - 1];
    if i == |Roots(before)| {
      assert last < |cs| && IsRoot(cs[last]) && |Roots(cs[..last])| == i;
    } else {
      EveryRootHasPlace(before, i);
      var k: nat :| k < |before| && IsRoot(before[k]) && |Roots(before[..k])| == i;
      assert before[..k] == cs[..k] && before[k] == cs[k];
    }
  }

  lemma {:induction false} EveryChildHasPlace(cs: seq<FileCategory>, i: nat)
    requires i < |Children(cs)|
    ensures exists k: nat :: k < |cs| && !IsRoot(cs[k]) && |Children(cs[..k])| == i
    decreases |cs|
  {
    var last, before := |cs| - 1, cs[..|cs| - 1];
    if i == |Children(before)| {
      assert last < |cs| && !IsRoot(cs[last]) && |Children(cs[..last])| == i;
    } else {
      EveryChildHasPlace(before, i);
      var k: nat :| k < |before| && !IsRoot(before[k]) && |Children(before[..k])| == i;
      assert before[..k] == cs[..k] && before[k] == cs[k];
    }
  }

  lemma EveryPlaceIsTaken(file: File, n: nat) returns (k: nat)
    requires n < |Passes(file)|
    ensures k < |file.categories| && Place(file.categories, k) == n
  {
    var cs := file.categories;
    if n < |Roots(cs)| {
      EveryRootHasPlace(cs, n);
      k :| k < |cs| && IsRoot(cs[k]) && |Roots(cs[..k])| == n;
    } else {
      EveryChildHasPlace(cs, n - |Roots(cs)|);
      k :| k < |cs| && !IsRoot(cs[k]) && |Children(cs[..k])| == n - |Roots(cs)|;
    }
  }

  lemma PassIdsDiffer(file: File)
    requires IdsDiffer(file.categories)
    ensures IdsDiffer(Passes(file))
  {
    forall i, j | 0 <= i < j < |Passes(file)| ensures Passes(file)[i].id != Passes(file)[j].id {
      var k := EveryPlaceIsTaken(file, i);
      var l := EveryPlaceIsTaken(file, j);
      PlaceHolds(file, k);
      PlaceHolds(file, l);
    }
  }

  /** Child k of the file has its parent before it: as a root anywhere, or as a child listed earlier. */
  ghost predicate HasParentBefore(cs: seq<FileCategory>, k: nat)
    requires k < |cs|
  {
    !IsRoot(cs[k])
    && exists p: nat :: p < |cs| && cs[p].id == cs[k].parentId.value && (IsRoot(cs[p]) || p < k)
  }

  lemma ParentBeforeIff(file: File, k: nat)
    requires k < |file.categories| && !IsRoot(file.categories[k])
    ensures Place(file.categories, k) < |Passes(file)|
    ensures HasParentBefore(file.categories, k) <==>
      exists m: nat :: m < Place(file.categories, k) && Passes(file)[m].id == file.categories[k].parentId.value
  {
    var cs, parent := file.categories, file.categories[k].parentId.value;
    PlaceHolds(file, k);
    hide Place, Passes;
    if p: nat :| p < |cs| && cs[p].id == parent && (IsRoot(cs[p]) || p < k) {
      PlaceHolds(file, p);
      PlaceOrder(cs, p, k);
      assert Passes(file)[Place(cs, p)].id == parent;
    }
    if m: nat :| m < Place(cs, k) && Passes(file)[m].id == parent {
      var p := EveryPlaceIsTaken(file, m);
      PlaceHolds(file, p);
      PlaceOrder(cs, p, k);
    }
  }

  /**
   A created category hangs below the image of its parent in the file exactly when the parent is
   met before it; otherwise it becomes a root.
   */
  lemma ChildrenFindParents(text: Text, categories: seq<Category>, next: Id, file: File, k: nat)
    requires IdsDiffer(file.categories) && k < |file.categories|
    requires Place(file.categories, k) < |Passes(file)|
    requires var start := CategoriesAtStart(text, categories, next);
      && CategoriesAfter(text, start, Passes(file), |Passes(file)|).Ok?
      && Makes(text, start, Passes(file), Place(file.categories, k))
    ensures var c := file.categories[k];
      var s := CategoriesAfter(text, CategoriesAtStart(text, categories, next), Passes(file), |Passes(file)|).value;
      && (HasParentBefore(file.categories, k) ==> c.parentId.value in s.idMap)
      && exists row ::
        && row in s.categories && Image(s.idMap, c.id) == Some(row.id)
        && row == Category(row.id, false, text.trim(c.name), c.entryType, c.isArchived,
                           if HasParentBefore(file.categories, k) then Image(s.idMap, c.parentId.value) else None)
  {
    PassIdsDiffer(file);
    PlaceHolds(file, k);
    var start, passes, n := CategoriesAtStart(text, categories, next), Passes(file), Place(file.categories, k);
    LoopMakesRows(text, start, passes, |passes|);
    LoopMapsByKey(text, start, passes, |passes|);
    if !IsRoot(file.categories[k]) {
      ParentBeforeIff(file, k);
    }
    var s := CategoriesAfter(text, start, passes, |passes|).value;
    RootHasNoParentBefore(file.categories, k);
    hide Place, Passes, CategoriesAfter, CategoriesAtStart, HasParentBefore, Lawful, Makes, IdsDiffer;
    assert HasRow(text, passes, n, s);
    var row :| row in s.categories && MadeAt(text, passes, n, s.idMap, row);
  }

  lemma RootHasNoParentBefore(cs: seq<FileCategory>, k: nat)
    requires k < |cs|
    ensures HasParentBefore(cs, k) ==> !IsRoot(cs[k])
  {
  }
}
