/**
  The question catalogue as the form engine prepares it after fetching it
  (`initializeForm`): each raw question gets its field defaults, questions
  missing an essential field are dropped, and the rest are sorted by stage
  (`etape`) and then by order within the stage (`ordre`).
*/
module Catalogue {
  import opened Maybe
  import opened Text

  /** A question as the catalogue endpoint delivers it; any field may be missing. */
  datatype RawQuestion = RawQuestion(
    idQuestion: Option<string>,
    etape: Option<int>,
    indicateur: Option<string>,
    titre: Option<string>,
    kind: Option<string>,
    coeff: Option<string>,
    categorie: Option<string>,
    options: Option<string>,
    description: Option<string>,
    obligatoire: Option<bool>,
    ordre: Option<int>)

  /**
    A question of the prepared catalogue. `indicateur` is the field name used
    by the rendered inputs and as the key of the collected answers; `coeff` is
    kept as text because the handler parses it again.
  */
  datatype Question = Question(
    idQuestion: string,
    etape: int,
    indicateur: string,
    titre: string,
    kind: string,
    coeff: string,
    categorie: string,
    options: seq<string>,
    description: string,
    obligatoire: bool,
    ordre: int)

  /** A question is kept iff its id, title, field name and type are truthy and its stage is defined. */
  predicate Usable(q: RawQuestion) {
    && Truthy(q.idQuestion)
    && Truthy(q.titre)
    && Truthy(q.indicateur)
    && Truthy(q.kind)
    && q.etape.Some?
  }

  /** `options.split(',').map(o => o.trim())` when the options are truthy, else no options. */
  function OptionList(raw: Option<string>): (r: seq<string>)
    ensures !Truthy(raw) ==> r == []
    ensures Truthy(raw) ==> |r| == |Split(raw.value, ',')|
    ensures Truthy(raw) ==> forall i :: 0 <= i < |r| ==> r[i] == Trim(Split(raw.value, ',')[i])
    ensures forall i :: 0 <= i < |r| ==> ',' !in r[i] && Trim(r[i]) == r[i]
  {
    if !Truthy(raw) then []
    else
      var options := SplitTrim(raw.value, ',');
      forall i | 0 <= i < |options|
        ensures ',' !in options[i] && Trim(options[i]) == options[i]
      {
        var part := Split(raw.value, ',')[i];
        TrimIdempotent(part);
        TrimSubstring(part);
      }
      options
  }

  /** The defaults applied to a raw question. */
  function Normalize(q: RawQuestion): (r: Question)
    requires Usable(q)
    ensures r.idQuestion == q.idQuestion.value && r.indicateur == q.indicateur.value
    ensures r.titre == q.titre.value && r.kind == q.kind.value && r.etape == q.etape.value
    ensures r.indicateur != [] && r.idQuestion != []
    ensures Truthy(q.coeff) ==> r.coeff == q.coeff.value
    ensures !Truthy(q.coeff) ==> r.coeff == "0"
    ensures Truthy(q.categorie) ==> r.categorie == q.categorie.value
    ensures !Truthy(q.categorie) ==> r.categorie == ""
    ensures !Truthy(q.options) ==> r.options == []
    ensures Truthy(q.options) ==> |r.options| == |Split(q.options.value, ',')|
    ensures Truthy(q.options) ==> forall i :: 0 <= i < |r.options| ==> r.options[i] == Trim(Split(q.options.value, ',')[i])
    ensures forall i :: 0 <= i < |r.options| ==> ',' !in r.options[i] && Trim(r.options[i]) == r.options[i]
    ensures Truthy(q.description) ==> r.description == q.description.value
    ensures !Truthy(q.description) ==> r.description == ""
    ensures r.obligatoire <==> q.obligatoire == Some(true)
    ensures q.ordre.None? ==> r.ordre == 0
    ensures q.ordre.Some? ==> r.ordre == q.ordre.value
  {
    Question(
      q.idQuestion.value,
      q.etape.value,
      q.indicateur.value,
      q.titre.value,
      q.kind.value,
      if Truthy(q.coeff) then q.coeff.value else "0",
      if Truthy(q.categorie) then q.categorie.value else "",
      OptionList(q.options),
      if Truthy(q.description) then q.description.value else "",
      q.obligatoire == Some(true),
      q.ordre.GetOr(0))
  }

  /** Every character of a trimmed string occurs in the original. */
  lemma TrimSubstring(s: string)
    ensures forall c :: c in Trim(s) ==> c in s
  {
    var t := TrimStart(s);
    assert forall c :: c in TrimEnd(t) ==> c in t;
    assert forall c :: c in t ==> c in s;
  }

  /** The kept questions, normalised, in catalogue order. */
  function KeptQuestions(raws: seq<RawQuestion>): (r: seq<Question>)
    ensures |r| <= |raws|
    ensures forall i :: 0 <= i < |raws| && Usable(raws[i]) ==> Normalize(raws[i]) in r
    ensures forall q :: q in r ==> exists i :: 0 <= i < |raws| && Usable(raws[i]) && q == Normalize(raws[i])
  {
    if |raws| == 0 then []
    else
      var rest := KeptQuestions(raws[1..]);
      assert forall i :: 1 <= i < |raws| ==> raws[i] == raws[1..][i - 1];
      if Usable(raws[0]) then [Normalize(raws[0])] + rest else rest
  }

  /** Filtering keeps catalogue order: the kept questions of a concatenation are those of its parts, concatenated. */
  lemma {:induction false} KeptQuestionsAppend(a: seq<RawQuestion>, b: seq<RawQuestion>)
    ensures KeptQuestions(a + b) == KeptQuestions(a) + KeptQuestions(b)
  {
    if |a| == 0 {
      assert a + b == b;
    } else {
      assert (a + b)[0] == a[0];
      assert (a + b)[1..] == a[1..] + b;
      KeptQuestionsAppend(a[1..], b);
    }
  }

  /** One raw question is kept, normalised, iff it is usable. */
  lemma KeptQuestionsSingle(q: RawQuestion)
    ensures KeptQuestions([q]) == if Usable(q) then [Normalize(q)] else []
  {
    assert [q][1..] == [];
  }

  /** Stage first, then order inside the stage: the comparator of the catalogue sort. */
  predicate KeyLe(a: Question, b: Question) {
    a.etape < b.etape || (a.etape == b.etape && a.ordre <= b.ordre)
  }

  predicate SortedByKey(qs: seq<Question>) {
    forall i, j :: 0 <= i < j < |qs| ==> KeyLe(qs[i], qs[j])
  }

  /** Places `q` before the first element whose key is not smaller than its own. */
  function Insert(q: Question, qs: seq<Question>): (r: seq<Question>)
    requires SortedByKey(qs)
    ensures SortedByKey(r)
    ensures multiset(r) == multiset(qs) + multiset{q}
  {
    if |qs| == 0 || KeyLe(q, qs[0]) then [q] + qs
    else
      var tail := Insert(q, qs[1..]);
      assert qs == [qs[0]] + qs[1..];
      InsertHeadBound(q, qs, tail);
      [qs[0]] + tail
  }

  /** The head of a sorted list that `q` does not precede is no greater than anything of the insertion into its tail. */
  lemma InsertHeadBound(q: Question, qs: seq<Question>, tail: seq<Question>)
    requires SortedByKey(qs) && |qs| > 0 && !KeyLe(q, qs[0])
    requires multiset(tail) == multiset(qs[1..]) + multiset{q}
    ensures forall i :: 0 <= i < |tail| ==> KeyLe(qs[0], tail[i])
  {
    forall i | 0 <= i < |tail|
      ensures KeyLe(qs[0], tail[i])
    {
      assert tail[i] in multiset(tail);
      if tail[i] != q {
        assert tail[i] in multiset(qs[1..]);
        var j :| 0 <= j < |qs[1..]| && qs[1..][j] == tail[i];
        assert qs[j + 1] == tail[i];
      }
    }
  }

  /**
    The catalogue sort (`Array.prototype.sort` with the stage/order
    comparator): sorted by key and a permutation of its input.
  */
  function SortQuestions(qs: seq<Question>): (r: seq<Question>)
    ensures SortedByKey(r)
    ensures multiset(r) == multiset(qs)
  {
    if |qs| == 0 then []
    else
      assert qs == [qs[0]] + qs[1..];
      Insert(qs[0], SortQuestions(qs[1..]))
  }

  /** The questions with stage `e` and order `o`, in their relative order. */
  function WithKey(qs: seq<Question>, e: int, o: int): (r: seq<Question>)
    ensures forall q :: q in r ==> q in qs && q.etape == e && q.ordre == o
  {
    if |qs| == 0 then []
    else (if qs[0].etape == e && qs[0].ordre == o then [qs[0]] else []) + WithKey(qs[1..], e, o)
  }

  /** `WithKey` of a list built by putting one question in front. */
  lemma WithKeyCons(x: Question, xs: seq<Question>, e: int, o: int)
    ensures WithKey([x] + xs, e, o) == (if x.etape == e && x.ordre == o then [x] else []) + WithKey(xs, e, o)
  {
    assert ([x] + xs)[1..] == xs;
  }

  /** Inserting a question adds it to its own key's group, in front of the equal keys already there. */
  lemma {:induction false} InsertStable(q: Question, qs: seq<Question>, e: int, o: int)
    requires SortedByKey(qs)
    ensures WithKey(Insert(q, qs), e, o)
      == (if q.etape == e && q.ordre == o then [q] else []) + WithKey(qs, e, o)
    decreases |qs|
  {
    if |qs| == 0 || KeyLe(q, qs[0]) {
      WithKeyCons(q, qs, e, o);
    } else {
      var tail := Insert(q, qs[1..]);
      WithKeyCons(qs[0], tail, e, o);
      InsertStable(q, qs[1..], e, o);
      assert qs == [qs[0]] + qs[1..];
      WithKeyCons(qs[0], qs[1..], e, o);
    }
  }

  /**
    The sort is stable: questions with equal stage and order keep their
    relative order (JavaScript's sort is stable since ES2019).
  */
  lemma {:induction false} SortStable(qs: seq<Question>, e: int, o: int)
    ensures WithKey(SortQuestions(qs), e, o) == WithKey(qs, e, o)
  {
    if |qs| > 0 {
      SortStable(qs[1..], e, o);
      InsertStable(qs[0], SortQuestions(qs[1..]), e, o);
    }
  }

  /** What the catalogue fetch produced. */
  datatype Response =
    | Questions(raws: seq<RawQuestion>)  // a successful response whose body is a JSON array
    | NotAList                           // a successful response with another JSON shape
    | FetchFailed                        // a non-2xx status, a network error or an unreadable body

  const UnexpectedShapeMessage: string := "Erreur: Structure de données inattendue reçue du serveur."
  const LoadFailedMessage: string := "Erreur: Impossible de charger les questions du formulaire. Veuillez réessayer plus tard."

  /** The catalogue after a load, and the status message shown, if any. */
  datatype Loaded = Loaded(catalogue: seq<Question>, status: Option<string>)

  /**
    `initializeForm` minus the fetch: on a list, the catalogue is replaced by
    the kept questions sorted by stage and order; otherwise the previous
    catalogue stays and an error message is shown.
  */
  function LoadCatalogue(previous: seq<Question>, response: Response): (r: Loaded)
    ensures response.Questions? ==> r.status.None?
    ensures response.Questions? ==> SortedByKey(r.catalogue)
    ensures response.Questions? ==> multiset(r.catalogue) == multiset(KeptQuestions(response.raws))
    ensures response.NotAList? ==> r == Loaded(previous, Some(UnexpectedShapeMessage))
    ensures response.FetchFailed? ==> r == Loaded(previous, Some(LoadFailedMessage))
  {
    match response
    case Questions(raws) => Loaded(SortQuestions(KeptQuestions(raws)), None)
    case NotAList => Loaded(previous, Some(UnexpectedShapeMessage))
    case FetchFailed => Loaded(previous, Some(LoadFailedMessage))
  }

  /** The loaded catalogue holds exactly the kept questions. */
  lemma CatalogueMembership(previous: seq<Question>, raws: seq<RawQuestion>)
    ensures forall q :: q in LoadCatalogue(previous, Questions(raws)).catalogue <==> q in KeptQuestions(raws)
  {
    var r := LoadCatalogue(previous, Questions(raws)).catalogue;
    forall q
      ensures q in r <==> q in KeptQuestions(raws)
    {
      assert q in r <==> q in multiset(r);
    }
  }
}
