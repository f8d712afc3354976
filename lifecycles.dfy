/** The lifecycle hooks of the knowledge-edge content type: the self-loop
    checks run before an edge is created or updated, and the metric updates
    run after a change, whose failures are logged and swallowed. */
module Lifecycles {
  import opened Wrappers

  /** The relation fields of the data a create or update carries; `None` is a
      field the data leaves out. */
  datatype EdgeData = EdgeData(sourceArticle: Option<int>, targetArticle: Option<int>)

  /** A hook either lets the operation go on or throws with a message. */
  datatype Verdict = Proceed | Throw(message: string)

  /** JavaScript truthiness of a relation id: present and not `0`. */
  predicate Truthy(id: Option<int>) {
    id.Some? && id.value != 0
  }

  /** `beforeCreate`: refuses exactly the data whose two relations are the
      same value, including two absent relations. */
  function BeforeCreate(data: EdgeData): (r: Verdict)
    ensures r.Throw? <==> data.sourceArticle == data.targetArticle
    ensures r.Throw? ==> r.message == "Cannot create edge from article to itself (self-loop)"
  {
    if data.sourceArticle == data.targetArticle then Throw("Cannot create edge from article to itself (self-loop)")
    else Proceed
  }

  /** `beforeUpdate`: refuses only data that sets both relations, truthily, to
      the same article; a partial update always passes. */
  function BeforeUpdate(data: EdgeData): (r: Verdict)
    ensures r.Throw? <==> Truthy(data.sourceArticle) && Truthy(data.targetArticle) && data.sourceArticle == data.targetArticle
    ensures r.Throw? ==> r.message == "Cannot update edge to create self-loop"
  {
    if Truthy(data.sourceArticle) && Truthy(data.targetArticle) && data.sourceArticle == data.targetArticle then
      Throw("Cannot update edge to create self-loop")
    else Proceed
  }

  /** Whatever an update refuses, a create refuses too; a create that carries
      no relations at all is refused while such an update passes. */
  lemma UpdateIsLaxer(data: EdgeData)
    ensures BeforeUpdate(data).Throw? ==> BeforeCreate(data).Throw?
    ensures data.sourceArticle.None? && data.targetArticle.None? ==> BeforeCreate(data).Throw? && BeforeUpdate(data).Proceed?
    ensures data.sourceArticle.None? != data.targetArticle.None? ==> BeforeCreate(data).Proceed? && BeforeUpdate(data).Proceed?
  {
  }

  /** The service calls an after-hook makes. */
  datatype Call = UpdateDegreeCounts | CalculatePageRank

  /** The calls an after-hook made, and whether the hook itself threw. */
  datatype HookRun = HookRun(calls: seq<Call>, threw: bool)

  /** `afterCreate` and `afterUpdate`: one `updateDegreeCounts` call, whose
      failure is caught. */
  function AfterChange(updateFails: bool): (r: HookRun)
    ensures r.calls == [UpdateDegreeCounts] && !r.threw
  {
    HookRun([UpdateDegreeCounts], false)
  }

  /** `afterDelete`: `updateDegreeCounts` and then `calculatePageRank`; a
      failing first call skips the second; any failure is caught. */
  function AfterDelete(updateFails: bool): (r: HookRun)
    ensures !r.threw
    ensures |r.calls| >= 1 && r.calls[0] == UpdateDegreeCounts
    ensures CalculatePageRank in r.calls <==> !updateFails
    ensures r.calls <= [UpdateDegreeCounts, CalculatePageRank]
  {
    if updateFails then HookRun([UpdateDegreeCounts], false)
    else HookRun([UpdateDegreeCounts, CalculatePageRank], false)
  }
}
