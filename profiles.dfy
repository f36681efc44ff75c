/** Resolution of the active connection profile (llmService.ts, `sendMessage`,
    lines 10-15). */
module Profiles {
  import opened LlmTypes

  const NoActiveProfileMessage := "No active LLM profile found"

  /** Position `k` holds the first profile whose id is `id`. */
  ghost predicate IsFirstWithId(profiles: seq<Profile>, id: string, k: int)
  {
    && 0 <= k < |profiles|
    && profiles[k].id == id
    && forall j :: 0 <= j < k ==> profiles[j].id != id
  }

  /** `profiles.find(p => p.id === id)`, as the position where the search stops. */
  function FindIndex(profiles: seq<Profile>, id: string): (r: Option<nat>)
    ensures r.Some? ==> IsFirstWithId(profiles, id, r.value)
    ensures r.None? ==> forall j :: 0 <= j < |profiles| ==> profiles[j].id != id
  {
    if profiles == [] then None
    else if profiles[0].id == id then Some(0)
    else
      match FindIndex(profiles[1..], id)
      case None => None
      case Some(k) => Some(k + 1)
  }

  /** The active profile, or the error thrown before any request is made. */
  function ResolveActive(settings: Settings): (r: Result<Profile, Thrown>)
    ensures r.Ok? ==> exists k :: IsFirstWithId(settings.llmProfiles, settings.activeProfileId, k)
                                 && settings.llmProfiles[k] == r.value
    ensures r.Err? ==> r.error == Error(NoActiveProfileMessage)
    ensures r.Err? <==> forall j :: 0 <= j < |settings.llmProfiles| ==>
                          settings.llmProfiles[j].id != settings.activeProfileId
  {
    match FindIndex(settings.llmProfiles, settings.activeProfileId)
    case None => Err(Error(NoActiveProfileMessage))
    case Some(k) => Ok(settings.llmProfiles[k])
  }

  /** The first profile carrying the active id is the one resolved, whatever
      follows it (later profiles with the same id are never used). */
  lemma ResolveActiveFirst(settings: Settings, k: nat)
    requires IsFirstWithId(settings.llmProfiles, settings.activeProfileId, k)
    ensures ResolveActive(settings) == Ok(settings.llmProfiles[k])
  {
    var ps, id := settings.llmProfiles, settings.activeProfileId;
    assert ps[k].id == id;
    var r := FindIndex(ps, id);
    assert r.value <= k;
  }
}
