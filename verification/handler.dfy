/**
  The submission handler (`exports.handler` of the serverless function):
  request gates answered before anything is stored, then the creates in a
  fixed order — supplier, product linked to the supplier, answer batches,
  score linked to the product — stopping at the first failure. The JSON
  parser and the record store are parameters.
*/
module Handler {
  import opened Maybe
  import opened Text
  import opened Answers
  import opened Scoring
  import opened Batching
  import opened Catalogue

  /** The parts of the incoming event the handler reads. */
  datatype Request = Request(httpMethod: string, body: Option<string>)

  /** What `JSON.parse` made of the body. */
  datatype Document =
    | Unparseable  // `JSON.parse` threw
    | NullDocument  // the body was the JSON literal `null`
      /**
        Any other JSON value: its `formData` when truthy, and its
        `dynamicQuestions` when it is an array.
      */
    | Document(formData: Option<FormData>, dynamicQuestions: Option<seq<Definition>>)

  /** The table names from the environment; the empty string when unset. */
  datatype Config = Config(supplierTable: string, productTable: string, answersTable: string, scoreTable: string)

  /** One create call on the record store: the table and the fields of the one record, or of the batch, created. */
  datatype Write =
    | CreateSupplier(table: string, fields: seq<(string, Option<Answer>)>)
    | CreateProduct(table: string, fields: seq<(string, Option<Answer>)>, supplierId: string)
    | CreateAnswers(table: string, records: seq<AnswerRecord>)
    | CreateScore(table: string, productId: string, ematA: real, ematB: real, masseA: Mass, masseB: Mass)

  /** The outcome of a create call: the id of the (first) record created, or the error's message. */
  datatype CreateResult = Created(id: string) | Failed(message: string)

  /** The record store: the outcome of the `k`-th create call of the request, given what it creates. */
  type Store = (nat, Write) -> CreateResult

  datatype Body =
    | Empty
    | Message(text: string)
    | Success(text: string, supplierId: string, productId: string, scoreId: string)

  /** The handler's response, or a throw outside its `try` blocks. */
  datatype Reply = Reply(status: int, body: Body) | Uncaught

  const MethodMessage: string := "Méthode non autorisée ou corps manquant."
  const JsonMessage: string := "Le JSON n'a pas pu être parsé."
  const FormDataMessage: string := "Données du formulaire manquantes"
  const ConfigMessage: string := "Configuration manquante: AIRTABLE_SCORE_TABLE_NAME."
  const StoreErrorPrefix: string := "Erreur lors de l'envoi à Airtable: "
  const SuccessMessage: string := "Informations (Fournisseur, Produit, Réponses, Score) envoyées avec succès !"

  const SupplierKeys: seq<string> := ["prenom_fournisseur", "nom_fournisseur", "email_fournisseur", "entreprise_fournisseur", "siret_fournisseur"]
  const ProductKeys: seq<string> := ["nom_produit", "description_produit"]

  /** `a` is the answer filed under `key` by the last entry that has that name. */
  predicate LastAnswer(fd: FormData, key: string, a: Answer) {
    exists j :: 0 <= j < |fd| && fd[j] == (key, a) && key !in Keys(fd[j + 1..])
  }

  /** `formData[key]`: the answer filed under `key`, the last one if several are. */
  function Value(fd: FormData, key: string): (r: Option<Answer>)
    ensures r.None? <==> key !in Keys(fd)
    ensures r.Some? ==> LastAnswer(fd, key, r.value)
  {
    var i := LastIndex(Keys(fd), key);
    if i < 0 then None
    else
      assert Keys(fd[i + 1..]) == Keys(fd)[i + 1..];
      assert fd[i] == (key, fd[i].1);
      Some(fd[i].1)
  }

  /**
    The named fields of a created record, copied from the answers: one
    entry per name, in order, absent when no answer has the name and
    otherwise the answer filed last under it.
  */
  function Fields(fd: FormData, keys: seq<string>): (r: seq<(string, Option<Answer>)>)
    ensures |r| == |keys|
    ensures forall i :: 0 <= i < |keys| ==> r[i].0 == keys[i] && (r[i].1.None? <==> keys[i] !in Keys(fd))
    ensures forall i :: 0 <= i < |keys| && r[i].1.Some? ==> LastAnswer(fd, keys[i], r[i].1.value)
  {
    seq(|keys|, i requires 0 <= i < |keys| => (keys[i], Value(fd, keys[i])))
  }

  function IdOf(r: CreateResult): string {
    if r.Created? then r.id else ""
  }

  /** The request passes every gate: a POST with a body that parses to an object holding answers, and a score table. */
  predicate Accepted(req: Request, parse: string -> Document, config: Config) {
    && req.httpMethod == "POST"
    && Truthy(req.body)
    && parse(req.body.value).Document?
    && parse(req.body.value).formData.Some?
    && config.scoreTable != ""
  }

  /** One create per batch of records, in order. */
  function BatchWrites(table: string, records: seq<AnswerRecord>): (r: seq<Write>)
    ensures forall k :: 0 <= k < |r| ==> r[k].CreateAnswers? && r[k].table == table && 0 < |r[k].records| <= BatchSize
    ensures Concat(seq(|r|, k requires 0 <= k < |r| => r[k].records)) == records
  {
    var batches := Batches(records);
    var r := seq(|batches|, k requires 0 <= k < |batches| => CreateAnswers(table, batches[k]));
    assert seq(|r|, k requires 0 <= k < |r| => r[k].records) == batches;
    r
  }

  /** The score record linked to the product: the two totals and the two masses. */
  function ScoreWrite(config: Config, fd: FormData, defs: Option<seq<Definition>>, productId: string): Write {
    var lookup := Lookup(defs);
    CreateScore(config.scoreTable, productId, Total(fd, lookup, EmatA), Total(fd, lookup, EmatB),
      MassOf(fd, MasseAKey), MassOf(fd, MasseBKey))
  }

  /** The creates after the product's: one per batch of answer records, then the score. */
  function TailWrites(config: Config, fd: FormData, defs: Option<seq<Definition>>, productId: string): (r: seq<Write>)
    ensures |r| >= 1
  {
    BatchWrites(config.answersTable, AnswerRecords(fd, Lookup(defs), productId)) + [ScoreWrite(config, fd, defs, productId)]
  }

  /**
    The creates a fully successful request makes, in order, given the ids
    the store hands back: the supplier, the product linked to it, one create
    per batch of answer records, and the score linked to the product.
  */
  function Planned(config: Config, fd: FormData, defs: Option<seq<Definition>>, store: Store): (plan: seq<Write>)
    ensures |plan| >= 3
  {
    var supplier := CreateSupplier(config.supplierTable, Fields(fd, SupplierKeys));
    var product := CreateProduct(config.productTable, Fields(fd, ProductKeys), IdOf(store(0, supplier)));
    [supplier, product] + TailWrites(config, fd, defs, IdOf(store(1, product)))
  }

  /**
    The gates of `exports.handler`, answered before any create: 204 for a
    preflight, 405 without POST or a body, 400 when the body does not parse,
    a throw for a `null` body, 400 without answers, 500 without a score
    table; nothing when the request is to be stored.
  */
  function Gate(req: Request, parse: string -> Document, config: Config): (r: Option<Reply>)
    ensures r.None? <==> Accepted(req, parse, config)
    ensures req.httpMethod == "OPTIONS" ==> r == Some(Reply(204, Empty))
    ensures req.httpMethod != "OPTIONS" && (req.httpMethod != "POST" || !Truthy(req.body)) ==>
      r == Some(Reply(405, Message(MethodMessage)))
    ensures req.httpMethod == "POST" && Truthy(req.body) && parse(req.body.value).Unparseable? ==>
      r == Some(Reply(400, Message(JsonMessage)))
    ensures req.httpMethod == "POST" && Truthy(req.body) && parse(req.body.value).NullDocument? ==>
      r == Some(Uncaught)
    ensures req.httpMethod == "POST" && Truthy(req.body) && parse(req.body.value).Document? && parse(req.body.value).formData.None? ==>
      r == Some(Reply(400, Message(FormDataMessage)))
    ensures (req.httpMethod == "POST" && Truthy(req.body) && parse(req.body.value).Document? && parse(req.body.value).formData.Some?
      && config.scoreTable == "") ==>
      r == Some(Reply(500, Message(ConfigMessage)))
  {
    if req.httpMethod == "OPTIONS" then Some(Reply(204, Empty))
    else if req.httpMethod != "POST" || !Truthy(req.body) then Some(Reply(405, Message(MethodMessage)))
    else
      match parse(req.body.value)
      case Unparseable => Some(Reply(400, Message(JsonMessage)))
      case NullDocument => Some(Uncaught)
      case Document(formData, _) =>
        if formData.None? then Some(Reply(400, Message(FormDataMessage)))
        else if config.scoreTable == "" then Some(Reply(500, Message(ConfigMessage)))
        else None
  }

  /** The creates `writes` are the start of the plan, and the store accepted every one of them. */
  predicate Progress(plan: seq<Write>, store: Store, writes: seq<Write>) {
    && |writes| <= |plan|
    && writes == plan[..|writes|]
    && forall k :: 0 <= k < |writes| ==> store(k, writes[k]).Created?
  }

  /**
    The reply after the creates `writes`: they are the start of the plan,
    each was issued only after the previous ones succeeded, the plan stops
    early only at a failure, a failure answers 500 with its message, and
    success of the whole plan answers 200 with the three ids.
  */
  predicate StoredInOrder(plan: seq<Write>, store: Store, reply: Reply, writes: seq<Write>) {
    && 3 <= |plan|
    && 0 < |writes| <= |plan|
    && writes == plan[..|writes|]
    && Progress(plan, store, writes[..|writes| - 1])
    && (writes != plan ==> store(|writes| - 1, writes[|writes| - 1]).Failed?)
    && (writes == plan && store(|plan| - 1, plan[|plan| - 1]).Created? ==>
          reply == Reply(200, Success(SuccessMessage, IdOf(store(0, plan[0])), IdOf(store(1, plan[1])),
                                      IdOf(store(|plan| - 1, plan[|plan| - 1])))))
    && (store(|writes| - 1, writes[|writes| - 1]).Failed? ==>
          reply == Reply(500, Message(StoreErrorPrefix + store(|writes| - 1, writes[|writes| - 1]).message)))
  }

  /** One more accepted create of the plan extends the progress. */
  lemma Advance(plan: seq<Write>, store: Store, writes: seq<Write>)
    requires Progress(plan, store, writes) && |writes| < |plan|
    requires store(|writes|, plan[|writes|]).Created?
    ensures Progress(plan, store, writes + [plan[|writes|]])
  {
    assert plan[..|writes| + 1] == plan[..|writes|] + [plan[|writes|]];
  }

  /** Batch `j` of the records is the slice the loop creates when its index is 10j. */
  lemma NextBatch(table: string, records: seq<AnswerRecord>, j: nat)
    requires BatchSize * j < |records|
    ensures j < |BatchWrites(table, records)|
    ensures BatchWrites(table, records)[j]
      == CreateAnswers(table, records[BatchSize * j .. Min(BatchSize * j + BatchSize, |records|)])
  {
    BatchExists(records, j);
    BatchIsSlice(records, j);
  }

  /**
    The batching loop of `exports.handler`: slices of ten records from
    position 0, 10, 20, ... are created one after the other, continuing the
    creates `done` of the plan, until one fails; the failure's message is
    returned and the failed create is the last of `writes`.
  */
  method SendBatches(table: string, records: seq<AnswerRecord>, store: Store, ghost plan: seq<Write>, done: seq<Write>)
    returns (writes: seq<Write>, failure: Option<string>)
    requires Progress(plan, store, done)
    requires |done| + |BatchWrites(table, records)| <= |plan|
    requires plan[|done|..|done| + |BatchWrites(table, records)|] == BatchWrites(table, records)
    ensures failure.None? ==> |writes| == |done| + |BatchWrites(table, records)| && Progress(plan, store, writes)
    ensures failure.Some? ==>
      && |done| < |writes| <= |done| + |BatchWrites(table, records)|
      && writes == plan[..|writes|]
      && Progress(plan, store, writes[..|writes| - 1])
      && store(|writes| - 1, writes[|writes| - 1]) == Failed(failure.value)
  {
    ghost var batches := BatchWrites(table, records);
    writes := done;
    var i := 0;
    ghost var j := 0;
    while i < |records|
      invariant i == BatchSize * j && j <= |batches|
      invariant i < |records| <==> j < |batches|
      invariant |writes| == |done| + j
      invariant Progress(plan, store, writes)
    {
      var w := CreateAnswers(table, records[i .. Min(i + BatchSize, |records|)]);
      NextBatch(table, records, j);
      assert w == batches[j] == plan[|writes|];
      var created := store(|writes|, w);
      if created.Failed? {
        assert writes + [w] == plan[..|writes| + 1];
        assert (writes + [w])[..|writes|] == writes;
        return writes + [w], Some(created.message);
      }
      Advance(plan, store, writes);
      writes := writes + [w];
      i := i + BatchSize;
      j := j + 1;
    }
    failure := None;
  }

  /** Stopping after a failed create: the 500 reply with the store's message. */
  lemma StopAtFailure(plan: seq<Write>, store: Store, writes: seq<Write>, message: string)
    requires 3 <= |plan| && 0 < |writes| <= |plan| && writes == plan[..|writes|]
    requires Progress(plan, store, writes[..|writes| - 1])
    requires store(|writes| - 1, writes[|writes| - 1]) == Failed(message)
    ensures StoredInOrder(plan, store, Reply(500, Message(StoreErrorPrefix + message)), writes)
  {
  }

  /** Completing the plan: the 200 reply with the supplier, product and score ids. */
  lemma CompletePlan(plan: seq<Write>, store: Store, scoreId: string)
    requires 3 <= |plan|
    requires Progress(plan, store, plan[..|plan| - 1])
    requires store(|plan| - 1, plan[|plan| - 1]) == Created(scoreId)
    ensures StoredInOrder(plan, store,
      Reply(200, Success(SuccessMessage, IdOf(store(0, plan[0])), IdOf(store(1, plan[1])), scoreId)), plan)
  {
  }

  /** The score create carries the loop's totals and masses. */
  lemma TailOfScores(config: Config, fd: FormData, defs: Option<seq<Definition>>, productId: string, scores: Scores)
    requires scores.ematA == Total(fd, Lookup(defs), EmatA) && scores.ematB == Total(fd, Lookup(defs), EmatB)
    requires scores.masseA == MassOf(fd, MasseAKey) && scores.masseB == MassOf(fd, MasseBKey)
    requires scores.records == AnswerRecords(fd, Lookup(defs), productId)
    ensures TailWrites(config, fd, defs, productId) == BatchWrites(config.answersTable, scores.records)
      + [CreateScore(config.scoreTable, productId, scores.ematA, scores.ematB, scores.masseA, scores.masseB)]
  {
  }

  /** The plan cut into the supplier, the product, the batches and the score. */
  lemma PlanSlices(plan: seq<Write>, supplier: Write, product: Write, batches: seq<Write>, score: Write)
    requires plan == [supplier, product] + batches + [score]
    ensures |plan| == |batches| + 3
    ensures plan[0] == supplier && plan[1] == product && plan[|plan| - 1] == score
    ensures plan[2..2 + |batches|] == batches
  {
  }

  /**
    The `try` block of `exports.handler`: the planned creates are issued in
    order until one fails. A failure answers 500 with its message and
    nothing more is created; when all succeed the reply is 200 with the
    supplier, product and score ids.
  */
  method Submit(config: Config, fd: FormData, defs: Option<seq<Definition>>, store: Store) returns (reply: Reply, writes: seq<Write>)
    ensures StoredInOrder(Planned(config, fd, defs, store), store, reply, writes)
  {
    ghost var plan := Planned(config, fd, defs, store);

    var supplier := CreateSupplier(config.supplierTable, Fields(fd, SupplierKeys));
    assert plan[0] == supplier;
    writes := [supplier];
    var created := store(0, supplier);
    if created.Failed? {
      StopAtFailure(plan, store, writes, created.message);
      return Reply(500, Message(StoreErrorPrefix + created.message)), writes;
    }
    var supplierId := created.id;
    Advance(plan, store, []);

    var product := CreateProduct(config.productTable, Fields(fd, ProductKeys), supplierId);
    assert plan[1] == product;
    created := store(1, product);
    if created.Failed? {
      writes := writes + [product];
      StopAtFailure(plan, store, writes, created.message);
      return Reply(500, Message(StoreErrorPrefix + created.message)), writes;
    }
    var productId := created.id;
    Advance(plan, store, writes);
    writes := writes + [product];

    var scores := ProcessAnswers(fd, Lookup(defs), productId);
    var score := CreateScore(config.scoreTable, productId, scores.ematA, scores.ematB, scores.masseA, scores.masseB);
    TailOfScores(config, fd, defs, productId, scores);
    ghost var batches := BatchWrites(config.answersTable, scores.records);
    PlanSlices(plan, supplier, product, batches, score);

    var failure;
    writes, failure := SendBatches(config.answersTable, scores.records, store, plan, writes);
    if failure.Some? {
      StopAtFailure(plan, store, writes, failure.value);
      return Reply(500, Message(StoreErrorPrefix + failure.value)), writes;
    }
    assert writes == plan[..|plan| - 1];
    created := store(|writes|, score);
    writes := writes + [score];
    assert writes == plan;
    if created.Failed? {
      StopAtFailure(plan, store, writes, created.message);
      return Reply(500, Message(StoreErrorPrefix + created.message)), writes;
    }
    CompletePlan(plan, store, created.id);
    reply := Reply(200, Success(SuccessMessage, supplierId, productId, created.id));
  }

  /**
    `exports.handler`: a request stopped at a gate gets the gate's reply
    and creates nothing; an accepted one is stored in order.
  */
  method Handle(req: Request, parse: string -> Document, config: Config, store: Store) returns (reply: Reply, writes: seq<Write>)
    ensures !Accepted(req, parse, config) ==> Some(reply) == Gate(req, parse, config) && writes == []
    ensures Accepted(req, parse, config) ==>
      StoredInOrder(Planned(config, parse(req.body.value).formData.value, parse(req.body.value).dynamicQuestions, store),
                    store, reply, writes)
  {
    var gate := Gate(req, parse, config);
    if gate.Some? {
      return gate.value, [];
    }
    var doc := parse(req.body.value);
    reply, writes := Submit(config, doc.formData.value, doc.dynamicQuestions, store);
  }

  /**
    The order of the planned creates: the supplier first, then the product
    linked to the supplier's id, then the answer records in batches that
    give back the records in order, then the score linked to the product's
    id; every record of the answers is linked to the product too.
  */
  lemma PlanOrder(config: Config, fd: FormData, defs: Option<seq<Definition>>, store: Store)
    ensures var plan := Planned(config, fd, defs, store);
      && |plan| >= 3
      && plan[0] == CreateSupplier(config.supplierTable, Fields(fd, SupplierKeys))
      && plan[1].CreateProduct? && plan[1].supplierId == IdOf(store(0, plan[0]))
      && (forall k :: 2 <= k < |plan| - 1 ==> plan[k].CreateAnswers? && 0 < |plan[k].records| <= BatchSize)
      && Concat(seq(|plan| - 3, k requires 0 <= k < |plan| - 3 => plan[k + 2].records))
           == AnswerRecords(fd, Lookup(defs), IdOf(store(1, plan[1])))
      && plan[|plan| - 1].CreateScore? && plan[|plan| - 1].productId == IdOf(store(1, plan[1]))
      && (forall k, rec :: 2 <= k < |plan| - 1 && rec in plan[k].records ==> rec.productId == IdOf(store(1, plan[1])))
  {
    var plan := Planned(config, fd, defs, store);
    var records := AnswerRecords(fd, Lookup(defs), IdOf(store(1, plan[1])));
    var batches := Batches(records);
    assert seq(|plan| - 3, k requires 0 <= k < |plan| - 3 => plan[k + 2].records) == batches;
    forall k, rec | 2 <= k < |plan| - 1 && rec in plan[k].records
      ensures rec.productId == IdOf(store(1, plan[1]))
    {
      assert plan[k].records == batches[k - 2];
      ConcatContains(batches, k - 2, rec);
    }
  }

  /** What a batch holds is in the concatenation of the batches. */
  lemma {:induction false} ConcatContains<T>(batches: seq<seq<T>>, k: nat, x: T)
    requires k < |batches| && x in batches[k]
    ensures x in Concat(batches)
  {
    if k > 0 {
      ConcatContains(batches[1..], k - 1, x);
    }
  }

  /** The definition the client sends for a catalogue question. */
  function DefinitionOf(q: Question): Definition {
    Definition(q.indicateur, q.idQuestion, q.categorie, q.coeff)
  }

  /**
    Client and handler agree: when the client sends its catalogue, a
    non-blank answer filed under a catalogue question's field name (other
    than a fixed field) is stored, linked to the id of the last catalogue
    question with that field name.
  */
  lemma CatalogueAnswerRecorded(catalogue: seq<Question>, fd: FormData, productId: string, i: nat)
    requires i < |fd| && fd[i].0 !in FixedKeys && !IsBlank(Flatten(fd[i].1))
    requires forall q :: q in catalogue ==> q.idQuestion != "" && q.indicateur != ""
    requires exists q :: q in catalogue && q.indicateur == fd[i].0
    ensures var defs := seq(|catalogue|, j requires 0 <= j < |catalogue| => DefinitionOf(catalogue[j]));
      && 0 <= LastIndex(Indicateurs(defs), fd[i].0) < |catalogue|
      && AnswerRecord(productId, catalogue[LastIndex(Indicateurs(defs), fd[i].0)].idQuestion, Flatten(fd[i].1))
        in AnswerRecords(fd, Lookup(Some(defs)), productId)
  {
    var defs := seq(|catalogue|, j requires 0 <= j < |catalogue| => DefinitionOf(catalogue[j]));
    var lookup := Lookup(Some(defs));
    var key := fd[i].0;
    LookupMapLastWins(defs);
    var q :| q in catalogue && q.indicateur == key;
    var j :| 0 <= j < |catalogue| && catalogue[j] == q;
    assert Indicateurs(defs)[j] == key;
    var last := LastIndex(Indicateurs(defs), key);
    assert lookup[key] == defs[last];
    assert catalogue[last] in catalogue;
    SelectedAnswerRecorded(fd, lookup, productId, i);
  }
}
