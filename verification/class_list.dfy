/** The class-list logic of the check-in page: which classes are shown, the
    search box filter, and the submit, rename, delete and clear-error
    updates of the page state. */
module ClassList {
  import opened Basics
  import opened Text
  import opened Seqs
  import opened StableSort

  /** One class (`turma`) as `/api/codigo/turmas` returns it. */
  datatype Turma = Turma(id: int, nome: string)

  /** The `turmasValidas` test: not the placeholder id 0, and not a name that
      reads "string" in any letter case. */
  predicate IsValidClass(t: Turma)
  {
    t.id != 0 && Lower(t.nome) != "string"
  }

  /** The `turmasValidas` filter on its own (the dashboard keeps the server's order). */
  function KeepValid(api: seq<Turma>): (r: seq<Turma>)
    ensures forall t :: t in r <==> t in api && IsValidClass(t)
    ensures IsSubsequence(r, api)
    ensures |r| == Count(api, IsValidClass)
  {
    var r := Filter(api, IsValidClass);
    forall t ensures t in r <==> t in api && IsValidClass(t) {
      FilterMembers(api, IsValidClass, t);
    }
    FilterIsSubsequence(api, IsValidClass);
    FilterLength(api, IsValidClass);
    r
  }

  /** Compares classes by name with the name order `le`. */
  function ByName(le: (string, string) -> bool): (Turma, Turma) -> bool
  {
    (a: Turma, b: Turma) => le(a.nome, b.nome)
  }

  lemma ByNameIsTotalPreorder(le: (string, string) -> bool)
    requires TotalPreorder(le)
    ensures TotalPreorder(ByName(le))
  {
    var cmp := ByName(le);
    forall a: Turma, b: Turma
      ensures cmp(a, b) || cmp(b, a)
    {
      assert le(a.nome, b.nome) || le(b.nome, a.nome);
    }
    forall a: Turma, b: Turma, c: Turma | cmp(a, b) && cmp(b, c)
      ensures cmp(a, c)
    {
      assert le(a.nome, b.nome) && le(b.nome, c.nome);
    }
  }

  /** `loadTurmas` of the check-in page: the valid classes, sorted by name.
      `le(a, b)` stands for `a.localeCompare(b) <= 0`. */
  function LoadClasses(api: seq<Turma>, le: (string, string) -> bool): (r: seq<Turma>)
    requires TotalPreorder(le)
    ensures multiset(r) == multiset(KeepValid(api))
    ensures forall t :: t in r <==> t in api && IsValidClass(t)
    ensures forall i, j :: 0 <= i < j < |r| ==> le(r[i].nome, r[j].nome)
  {
    ByNameIsTotalPreorder(le);
    var v := KeepValid(api);
    var r := Sort(v, ByName(le));
    forall t ensures t in r <==> t in v {
      assert t in r <==> t in multiset(r);
      assert t in v <==> t in multiset(v);
    }
    r
  }

  /** The search box test: the lower-cased name contains the lower-cased query. */
  predicate MatchesQuery(t: Turma, query: string)
  {
    Contains(Lower(t.nome), Lower(query))
  }

  /** The search box test for a fixed query. */
  function Matches(query: string): Turma -> bool
  {
    (t: Turma) => MatchesQuery(t, query)
  }

  /** `turmasFiltradas`: the classes matching the query, in list order. */
  function Search(classes: seq<Turma>, query: string): (r: seq<Turma>)
    ensures forall t :: t in r <==> t in classes && MatchesQuery(t, query)
    ensures IsSubsequence(r, classes)
    ensures |r| == Count(classes, Matches(query))
  {
    var p := Matches(query);
    var r := Filter(classes, p);
    forall t ensures t in r <==> t in classes && MatchesQuery(t, query) {
      FilterMembers(classes, p, t);
    }
    FilterIsSubsequence(classes, p);
    FilterLength(classes, p);
    r
  }

  /** An empty search box shows every class. */
  lemma SearchEmptyQuery(classes: seq<Turma>)
    ensures Search(classes, "") == classes
  {
    forall t | t in classes
      ensures MatchesQuery(t, "")
    {
      ContainsEmpty(Lower(t.nome));
    }
    FilterAll(classes, Matches(""));
  }

  /** The search ignores the letter case of the query. */
  lemma SearchIgnoresQueryCase(classes: seq<Turma>, query: string)
    ensures Search(classes, Lower(query)) == Search(classes, query)
  {
    LowerIdempotent(query);
    FilterCongruent(classes, Matches(Lower(query)), Matches(query));
  }

  predicate HasOtherId(t: Turma, id: int)
  {
    t.id != id
  }

  /** Gives every class whose id is `id` the name `nome`; the other classes
      stay as they are. */
  function RenameById(classes: seq<Turma>, id: int, nome: string): (r: seq<Turma>)
    ensures |r| == |classes|
    ensures forall i :: 0 <= i < |r| ==> r[i].id == classes[i].id
    ensures forall i :: 0 <= i < |r| && classes[i].id != id ==> r[i] == classes[i]
    ensures forall i :: 0 <= i < |r| && classes[i].id == id ==> r[i].nome == nome
  {
    seq(|classes|, i requires 0 <= i < |classes| =>
      if classes[i].id == id then classes[i].(nome := nome) else classes[i])
  }

  /** Drops every class whose id is `id`, keeping the others in order. */
  function RemoveById(classes: seq<Turma>, id: int): (r: seq<Turma>)
    ensures forall t :: t in r <==> t in classes && t.id != id
    ensures IsSubsequence(r, classes)
    ensures |r| == |classes| - Count(classes, (t: Turma) => t.id == id)
  {
    var p := (t: Turma) => HasOtherId(t, id);
    var r := Filter(classes, p);
    forall t ensures t in r <==> t in classes && t.id != id {
      FilterMembers(classes, p, t);
    }
    FilterIsSubsequence(classes, p);
    FilterLength(classes, p);
    CountComplement(classes, id);
    r
  }

  lemma {:induction false} CountComplement(classes: seq<Turma>, id: int)
    ensures Count(classes, (t: Turma) => HasOtherId(t, id)) + Count(classes, (t: Turma) => t.id == id) == |classes|
    decreases |classes|
  {
    if |classes| > 0 {
      CountComplement(classes[..|classes| - 1], id);
    }
  }

  /** A rename never affects which classes a later delete of the same id keeps. */
  lemma RenameThenRemove(classes: seq<Turma>, id: int, nome: string)
    ensures RemoveById(RenameById(classes, id, nome), id) == RemoveById(classes, id)
  {
    RenameThenRemoveFilter(classes, id, nome);
  }

  lemma {:induction false} RenameThenRemoveFilter(classes: seq<Turma>, id: int, nome: string)
    ensures Filter(RenameById(classes, id, nome), (t: Turma) => HasOtherId(t, id))
         == Filter(classes, (t: Turma) => HasOtherId(t, id))
    decreases |classes|
  {
    if |classes| > 0 {
      var c' := classes[..|classes| - 1];
      RenameThenRemoveFilter(c', id, nome);
      assert RenameById(classes, id, nome)[..|classes| - 1] == RenameById(c', id, nome);
    }
  }

  // ---------------------------------------------------------------------------
  // Page state and its updates.

  const TurmaKey := "turma"
  const GeralKey := "geral"
  const MsgChooseClass := "Por favor, selecione ou crie uma turma."
  const MsgEmptyName := "Nome da turma não pode ser vazio."
  const MsgCheckinFailed := "Falha ao liberar check-in. Tente novamente."
  const MsgEditFailed := "Erro ao editar turma. Tente novamente."
  const MsgDeleteFailed := "Erro ao apagar turma. Tente novamente."

  /** `clearError(field)`: drops `field` from the error map when it holds a
      (non-empty, hence truthy) message. */
  function ClearError(errors: map<string, string>, field: string): (r: map<string, string>)
    ensures field in errors && errors[field] != "" ==> r.Keys == errors.Keys - {field}
    ensures !(field in errors && errors[field] != "") ==> r == errors
    ensures forall k :: k in r ==> k in errors && r[k] == errors[k]
  {
    if field in errors && errors[field] != "" then errors - {field} else errors
  }

  /** Clearing a field twice is clearing it once. */
  lemma ClearErrorIdempotent(errors: map<string, string>, field: string)
    ensures ClearError(ClearError(errors, field), field) == ClearError(errors, field)
  {
  }

  /** The request a handler sends to the server. */
  datatype Request =
    | CreateCheckin(nomeTurma: string)
    | RenameClass(id: int, body: string)
    | DeleteClass(id: int)

  /** The state the handlers read and write. */
  datatype Page = Page(
    turma: string,                  // the text box
    classes: seq<Turma>,            // `turmas`
    errors: map<string, string>,
    editIndex: Option<int>,         // an index into `Search(classes, turma)`
    editValue: string,
    deleteIndex: Option<int>)       // an index into `Search(classes, turma)`

  /** A handler's outcome: the new state and the request sent, if any. */
  datatype Step = Step(page: Page, request: Option<Request>)

  /** The class at position `index` of the list as shown, if there is one
      (`turmasFiltradas[index]`). */
  function Shown(pg: Page, index: Option<int>): (r: Option<Turma>)
    ensures r.Some? <==> index.Some? && 0 <= index.value < |Search(pg.classes, pg.turma)|
    ensures r.Some? ==> r.value == Search(pg.classes, pg.turma)[index.value] && r.value in pg.classes
  {
    var shown := Search(pg.classes, pg.turma);
    if index.Some? && 0 <= index.value < |shown| then Some(shown[index.value]) else None
  }

  /** `handleSubmit`. `accepted` is whether the server answered with success. */
  function Submit(pg: Page, accepted: bool): (s: Step)
    ensures s.request.None? <==> IsBlank(pg.turma)
    ensures IsBlank(pg.turma) ==> s.page == pg.(errors := map[TurmaKey := MsgChooseClass])
    ensures s.request.Some? ==> s.request.value == CreateCheckin(pg.turma)
    ensures s.request.Some? && accepted ==> s.page == pg.(turma := "", errors := map[])
    ensures s.request.Some? && !accepted ==> s.page == pg.(errors := map[GeralKey := MsgCheckinFailed])
  {
    if Trim(pg.turma) == "" then Step(pg.(errors := map[TurmaKey := MsgChooseClass]), None)
    else if accepted then Step(pg.(turma := "", errors := map[]), Some(CreateCheckin(pg.turma)))
    else Step(pg.(errors := map[GeralKey := MsgCheckinFailed]), Some(CreateCheckin(pg.turma)))
  }

  /** `iniciarEdicao`: the page only offers it on a row of the shown list. */
  function StartEdit(pg: Page, index: int): (p: Page)
    requires 0 <= index < |Search(pg.classes, pg.turma)|
    ensures Shown(p, p.editIndex) == Shown(pg, Some(index))
    ensures p.editValue == Shown(pg, Some(index)).value.nome
    ensures p.classes == pg.classes && p.turma == pg.turma && p.errors == pg.errors && p.deleteIndex == pg.deleteIndex
  {
    pg.(editIndex := Some(index), editValue := Search(pg.classes, pg.turma)[index].nome)
  }

  /** Confirming an edit right after starting it asks the server to rename
      the chosen class to the name it already has. */
  lemma EditUnchangedKeepsName(pg: Page, index: int, le: (string, string) -> bool, accepted: bool)
    requires TotalPreorder(le)
    requires 0 <= index < |Search(pg.classes, pg.turma)|
    requires !IsBlank(Search(pg.classes, pg.turma)[index].nome)
    ensures
      var t := Search(pg.classes, pg.turma)[index];
      ConfirmEdit(StartEdit(pg, index), le, accepted).request == Some(RenameClass(t.id, t.nome))
  {
  }

  /** `confirmarEdicao`. The list is re-sorted by name with `le` afterwards. */
  function ConfirmEdit(pg: Page, le: (string, string) -> bool, accepted: bool): (s: Step)
    requires TotalPreorder(le)
    ensures IsBlank(pg.editValue) ==> s == Step(pg.(errors := pg.errors[TurmaKey := MsgEmptyName]), None)
    ensures s.request.Some? <==> !IsBlank(pg.editValue) && Shown(pg, pg.editIndex).Some?
    ensures s.request.Some? ==> s.request.value == RenameClass(Shown(pg, pg.editIndex).value.id, pg.editValue)
    ensures s.page.classes != pg.classes ==> s.request.Some? && accepted
    ensures s.request.Some? && accepted ==>
              && multiset(s.page.classes)
                 == multiset(RenameById(pg.classes, Shown(pg, pg.editIndex).value.id, Trim(pg.editValue)))
              && (forall i, j :: 0 <= i < j < |s.page.classes| ==> le(s.page.classes[i].nome, s.page.classes[j].nome))
              && s.page.errors == map[] && s.page.editIndex.None? && s.page.editValue == ""
              && s.page.turma == pg.turma && s.page.deleteIndex == pg.deleteIndex
    ensures !IsBlank(pg.editValue) && !(s.request.Some? && accepted) ==>
              s.page == pg.(errors := pg.errors[GeralKey := MsgEditFailed])
  {
    if Trim(pg.editValue) == "" then Step(pg.(errors := pg.errors[TurmaKey := MsgEmptyName]), None)
    else
      match Shown(pg, pg.editIndex)
      case None => Step(pg.(errors := pg.errors[GeralKey := MsgEditFailed]), None)
      case Some(target) =>
        var request := Some(RenameClass(target.id, pg.editValue));
        if accepted then
          ByNameIsTotalPreorder(le);
          var renamed := Sort(RenameById(pg.classes, target.id, Trim(pg.editValue)), ByName(le));
          Step(pg.(classes := renamed, editIndex := None, editValue := "", errors := map[]), request)
        else Step(pg.(errors := pg.errors[GeralKey := MsgEditFailed]), request)
  }

  /** `confirmarExclusao`. */
  function ConfirmDelete(pg: Page, accepted: bool): (s: Step)
    ensures s.request.Some? <==> Shown(pg, pg.deleteIndex).Some?
    ensures s.request.Some? ==> s.request.value == DeleteClass(Shown(pg, pg.deleteIndex).value.id)
    ensures s.page.deleteIndex.None?
    ensures s.request.Some? && accepted ==>
              var gone := Shown(pg, pg.deleteIndex).value;
              && s.page.classes == RemoveById(pg.classes, gone.id)
              && s.page.errors == map[]
              && (pg.turma == gone.nome ==> s.page.turma == "")
              && (pg.turma != gone.nome ==> s.page.turma == pg.turma)
              && s.page.editIndex == pg.editIndex && s.page.editValue == pg.editValue
    ensures !(s.request.Some? && accepted) ==>
              s.page == pg.(errors := pg.errors[GeralKey := MsgDeleteFailed], deleteIndex := None)
  {
    match Shown(pg, pg.deleteIndex)
    case None => Step(pg.(errors := pg.errors[GeralKey := MsgDeleteFailed], deleteIndex := None), None)
    case Some(gone) =>
      var request := Some(DeleteClass(gone.id));
      if accepted then
        var turma := if pg.turma == gone.nome then "" else pg.turma;
        Step(pg.(classes := RemoveById(pg.classes, gone.id), deleteIndex := None, errors := map[], turma := turma), request)
      else Step(pg.(errors := pg.errors[GeralKey := MsgDeleteFailed], deleteIndex := None), request)
  }

  /** The delete index counts positions in the searched list: with the query
      "b", position 0 is the class "B", not the first class of the list. */
  lemma DeleteIndexIsIntoSearchedList()
    ensures
      var pg := Page("b", [Turma(1, "A"), Turma(2, "B")], map[], None, "", Some(0));
      ConfirmDelete(pg, true).request == Some(DeleteClass(2))
  {
    var classes := [Turma(1, "A"), Turma(2, "B")];
    var p := Matches("b");
    assert !Contains(Lower("A"), Lower("b")) by {
      assert Lower("A") == "a" && Lower("b") == "b";
      ContainsSameLength("a", "b");
    }
    assert Contains(Lower("B"), Lower("b")) by {
      assert Lower("B") == "b";
      assert OccursAt("b", "b", 0);
    }
    assert classes[..1] == [Turma(1, "A")];
    assert Filter([Turma(1, "A")], p) == [];
    assert Search(classes, "b") == [Turma(2, "B")];
  }
}
