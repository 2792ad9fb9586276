/**
 * Facts that relate the evaluator and the provider. The two read different
 * host stores, so these relate their definitions, not their data.
 */
module ProfileConsistency {
  import opened Wrappers
  import UserDataEvaluator
  import UserDataProvider

  /** The provider's cache key is the name of the evaluator's data table. */
  lemma CacheKeyIsDataTable(characterName: string, userId: string)
    ensures UserDataProvider.GetCacheKey(characterName, userId) == UserDataEvaluator.DataTableName(characterName, userId)
  {
  }

  /** The gate skips extraction only for a record the provider would also call complete. */
  lemma GateSkipsOnlyCompleteProfiles(tables: map<string, seq<UserDataEvaluator.Memory>>,
                                      characterName: string, userId: string, roomId: string)
    ensures var existing := UserDataEvaluator.GetMemories(tables, UserDataEvaluator.DataTableName(characterName, userId), roomId);
      !UserDataEvaluator.Validate(tables, characterName, userId, roomId) ==>
        && existing != [] && existing[0].content.Profile?
        && UserDataProvider.IsDataComplete(existing[0].content.record.data)
        && UserDataProvider.MissingFields(existing[0].content.record.data) == []
  {
    var existing := UserDataEvaluator.GetMemories(tables, UserDataEvaluator.DataTableName(characterName, userId), roomId);
    if !UserDataEvaluator.Validate(tables, characterName, userId, roomId) {
      UserDataProvider.MissingEmptyIffComplete(existing[0].content.record.data);
    }
  }

  /**
   * Every record the handler writes carries an `isComplete` flag that agrees
   * with the provider's reading of its fields: the flag is never set while a
   * field is missing.
   */
  lemma WrittenFlagAgreesWithProvider(existing: seq<UserDataEvaluator.Memory>,
                                      extract: UserDataEvaluator.Content -> UserDataEvaluator.ModelReply, now: int)
    ensures var d := UserDataEvaluator.Decide(existing, extract, now);
      d.write.Some? ==>
        && d.write.value.data.isComplete == Some(UserDataProvider.IsDataComplete(d.write.value.data))
        && (d.write.value.data.isComplete == Some(true) <==> UserDataProvider.MissingFields(d.write.value.data) == [])
  {
    var d := UserDataEvaluator.Decide(existing, extract, now);
    if d.write.Some? {
      UserDataProvider.MissingEmptyIffComplete(d.write.value.data);
    }
  }
}
