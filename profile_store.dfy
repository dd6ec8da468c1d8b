/**
 * The profile records of the Profiles component and the three steps that compute
 * with them: allocating the id of a new profile, building the record that is posted
 * for it, and merging a prediction response into the profile a ticker was chosen for.
 */
module ProfileStore {
  import opened Wrappers

  /** The three risk horizons of a prediction response (`risk_output`). */
  datatype RiskOutput = RiskOutput(risk1Month: string, risk6Months: string, risk24Months: string)

  /**
   * The `data` member of a profile. `ticker` is the chosen symbol, empty while none
   * is chosen; `plot` and `riskOutput` are the last prediction merged in (None when
   * absent); `others` holds every other member by name, as serialized text, which
   * nothing here touches.
   */
  datatype ProfileData = ProfileData(
    ticker: string,
    plot: Option<string>,
    riskOutput: Option<RiskOutput>,
    others: map<string, string>)

  datatype Profile = Profile(id: int, data: ProfileData)

  /**
   * The `data` of a prediction service response that is an object (or any other
   * value that is not null or undefined); an absent member reads as `undefined`.
   */
  datatype Prediction = Prediction(plot: Option<string>, riskOutput: Option<RiskOutput>)

  /** How the prediction request of `updateTicker` ended. */
  datatype PredictionOutcome =
    /** The request was rejected: the `await` on it throws. */
    Rejected
    /** The request resolved; `body` is the response's `data`, None when that is
        null or undefined. */
  | Resolved(body: Option<Prediction>)

  /** Why `updateTicker` ends up in its `catch` block. */
  datatype UpdateError =
    /** The prediction request was rejected; nothing has been written. */
    PredictionFailed
    /** No profile has the id: `find` returns `undefined` and reading its `data`
        throws; nothing has been written. */
  | NoSuchProfile
    /** The response's `data` is null or undefined: reading its `plot` throws after
        the ticker has already been written into the profile. */
  | NoResponseData

  /** The profile list after the merge step, and the record sent back to the backend or why none is. */
  datatype MergeResult = MergeResult(profiles: seq<Profile>, written: Result<Profile, UpdateError>)

  /** The ids of the profiles, in list order (`profiles.map(profile => profile.id)`). */
  function Ids(profiles: seq<Profile>): (ids: seq<int>)
    ensures |ids| == |profiles|
    ensures forall i :: 0 <= i < |profiles| ==> ids[i] == profiles[i].id
  {
    seq(|profiles|, i requires 0 <= i < |profiles| => profiles[i].id)
  }

  /** `Math.max` over a non-empty list of ids. */
  function Max(xs: seq<int>): (m: int)
    requires xs != []
    ensures m in xs
    ensures forall x :: x in xs ==> x <= m
  {
    if |xs| == 1 then xs[0]
    else
      var rest := Max(xs[1..]);
      assert forall x :: x in xs ==> x == xs[0] || x in xs[1..];
      if xs[0] >= rest then xs[0] else rest
  }

  /**
   * `generateUniqueId`: 1 for an empty list; otherwise one more than the largest id,
   * or 1 when that is below 1. The result is positive, above every existing id, and
   * the smallest such value: it is 1 or it follows an existing id directly.
   */
  function GenerateUniqueId(profiles: seq<Profile>): (id: int)
    ensures id >= 1
    ensures forall p :: p in profiles ==> p.id < id
    ensures profiles == [] ==> id == 1
    ensures id == 1 || id - 1 in Ids(profiles)
  {
    if |profiles| == 0 then 1
    else
      var maxId := Max(Ids(profiles));
      assert forall p :: p in profiles ==> p.id in Ids(profiles) by {
        forall p | p in profiles ensures p.id in Ids(profiles) {
          var i :| 0 <= i < |profiles| && profiles[i] == p;
          assert Ids(profiles)[i] == p.id;
        }
      }
      if maxId >= 1 then maxId + 1 else 1
  }

  /** A profile with no ticker, which the component offers a ticker selection for. */
  predicate Unassigned(p: Profile) {
    p.data.ticker == ""
  }

  /** No two profiles share an id. */
  predicate UniqueIds(profiles: seq<Profile>) {
    forall i, j :: 0 <= i < j < |profiles| ==> profiles[i].id != profiles[j].id
  }

  /**
   * The record `createProfile` posts: the id `generateUniqueId` gives, which is
   * fresh, and no ticker, plot, risk assessment or other data.
   */
  function CreateProfile(profiles: seq<Profile>): (p: Profile)
    ensures p.id == GenerateUniqueId(profiles)
    ensures p.id >= 1 && p.id !in Ids(profiles)
    ensures Unassigned(p) && p.data.plot.None? && p.data.riskOutput.None? && p.data.others == map[]
  {
    Profile(GenerateUniqueId(profiles), ProfileData("", None, None, map[]))
  }

  /** The list with a newly created profile added keeps its ids distinct. */
  lemma CreateKeepsIdsUnique(profiles: seq<Profile>)
    requires UniqueIds(profiles)
    ensures UniqueIds(profiles + [CreateProfile(profiles)])
  {
    var p := CreateProfile(profiles);
    var ps := profiles + [p];
    forall i, j | 0 <= i < j < |ps| ensures ps[i].id != ps[j].id {
      if j == |profiles| {
        assert ps[i] in profiles;
      }
    }
  }

  /**
   * Creating a profile after another, with nothing deleted in between, gives the
   * next integer: ids handed out in a row increase by one.
   */
  lemma {:induction false} CreateAdvancesId(profiles: seq<Profile>)
    ensures GenerateUniqueId(profiles + [CreateProfile(profiles)]) == GenerateUniqueId(profiles) + 1
  {
    var n := GenerateUniqueId(profiles);
    var ps := profiles + [CreateProfile(profiles)];
    var m := GenerateUniqueId(ps);
    assert ps[|profiles|].id == n;
    assert ps[|profiles|] in ps;
    if m != 1 {
      var i :| 0 <= i < |ps| && Ids(ps)[i] == m - 1;
      assert ps[i] in ps;
    }
  }

  /**
   * Ids are fresh only with respect to the profiles still listed: once the newest
   * profile is deleted, the next one created gets its id again.
   */
  lemma DeletedNewestIdIsReused(profiles: seq<Profile>)
    ensures var p := CreateProfile(profiles);
            CreateProfile((profiles + [p])[..|profiles|]).id == p.id
  {
    assert (profiles + [CreateProfile(profiles)])[..|profiles|] == profiles;
  }

  /**
   * `profiles.find(profile => profile.id === id)`, as a position: the first profile
   * with the id, or -1 when there is none.
   */
  function FindProfile(profiles: seq<Profile>, id: int): (i: int)
    ensures -1 <= i < |profiles|
    ensures i == -1 <==> forall j :: 0 <= j < |profiles| ==> profiles[j].id != id
    ensures 0 <= i ==> profiles[i].id == id && forall j :: 0 <= j < i ==> profiles[j].id != id
  {
    if profiles == [] then -1
    else if profiles[0].id == id then 0
    else
      var j := FindProfile(profiles[1..], id);
      if j < 0 then -1 else j + 1
  }

  /**
   * The data of a profile once a ticker is chosen for it and the prediction for
   * that ticker arrives: `ticker`, `plot` and `risk_output` hold the new values and
   * every other member is kept.
   */
  function WithPrediction(data: ProfileData, ticker: string, response: Prediction): (d: ProfileData)
    ensures d.ticker == ticker && d.plot == response.plot && d.riskOutput == response.riskOutput
    ensures d.others == data.others
  {
    data.(ticker := ticker, plot := response.plot, riskOutput := response.riskOutput)
  }

  /** Some profile has the id. */
  predicate HasProfile(profiles: seq<Profile>, id: int) {
    exists j :: 0 <= j < |profiles| && profiles[j].id == id
  }

  /**
   * The merge step of `updateTicker` for profile `id` and `ticker`, given how the
   * prediction request ended. A rejected request, or a missing profile, changes
   * nothing. A resolved request whose `data` is null writes only the ticker into
   * the first profile with the id and then fails. Otherwise that profile gets the
   * ticker, plot and risk assessment, and is the record written back. In every
   * case ids, the profile's other data and every other profile are kept.
   */
  function MergeTicker(profiles: seq<Profile>, id: int, ticker: string, outcome: PredictionOutcome)
    : (r: MergeResult)
    ensures |r.profiles| == |profiles|
    ensures forall j :: 0 <= j < |profiles| ==> r.profiles[j].id == profiles[j].id
    ensures forall j :: 0 <= j < |profiles| && j != FindProfile(profiles, id) ==> r.profiles[j] == profiles[j]
    ensures r.written.Ok? <==> outcome.Resolved? && outcome.body.Some? && HasProfile(profiles, id)
    ensures outcome.Rejected? ==> r == MergeResult(profiles, Err(PredictionFailed))
    ensures outcome.Resolved? && !HasProfile(profiles, id) ==> r == MergeResult(profiles, Err(NoSuchProfile))
    ensures outcome.Resolved? && outcome.body.None? && HasProfile(profiles, id) ==>
      var i := FindProfile(profiles, id);
      r.written == Err(NoResponseData) &&
      r.profiles[i].data.ticker == ticker &&
      r.profiles[i].data.plot == profiles[i].data.plot &&
      r.profiles[i].data.riskOutput == profiles[i].data.riskOutput &&
      r.profiles[i].data.others == profiles[i].data.others
    ensures r.written.Ok? ==>
      var i := FindProfile(profiles, id);
      outcome.Resolved? && outcome.body.Some? && 0 <= i &&
      r.written.value == r.profiles[i] &&
      r.profiles[i].data.ticker == ticker &&
      r.profiles[i].data.plot == outcome.body.value.plot &&
      r.profiles[i].data.riskOutput == outcome.body.value.riskOutput &&
      r.profiles[i].data.others == profiles[i].data.others
  {
    var i := FindProfile(profiles, id);
    if outcome.Rejected? then MergeResult(profiles, Err(PredictionFailed))
    else if i < 0 then MergeResult(profiles, Err(NoSuchProfile))
    else
      var p := profiles[i];
      match outcome.body
      case None => MergeResult(profiles[i := p.(data := p.data.(ticker := ticker))], Err(NoResponseData))
      case Some(prediction) =>
        var q := p.(data := WithPrediction(p.data, ticker, prediction));
        MergeResult(profiles[i := q], Ok(q))
  }

  /** The merge keeps every id where it was, so the next id and id uniqueness are unaffected. */
  lemma MergeKeepsIds(profiles: seq<Profile>, id: int, ticker: string, outcome: PredictionOutcome)
    ensures Ids(MergeTicker(profiles, id, ticker, outcome).profiles) == Ids(profiles)
    ensures GenerateUniqueId(MergeTicker(profiles, id, ticker, outcome).profiles) == GenerateUniqueId(profiles)
    ensures UniqueIds(profiles) ==> UniqueIds(MergeTicker(profiles, id, ticker, outcome).profiles)
  {
    var ps := MergeTicker(profiles, id, ticker, outcome).profiles;
    assert Ids(ps) == Ids(profiles);
  }

  /** Merging the same prediction outcome twice is merging it once, whatever the outcome. */
  lemma MergeIdempotent(profiles: seq<Profile>, id: int, ticker: string, outcome: PredictionOutcome)
    ensures MergeTicker(MergeTicker(profiles, id, ticker, outcome).profiles, id, ticker, outcome) ==
            MergeTicker(profiles, id, ticker, outcome)
  {
    var ps := MergeTicker(profiles, id, ticker, outcome).profiles;
    var i := FindProfile(profiles, id);
    assert FindProfile(ps, id) == i;
    var ps2 := MergeTicker(ps, id, ticker, outcome).profiles;
    assert ps2 == ps;
  }

  /**
   * A response whose `data` is null leaves the profile with its new ticker and
   * its old plot, and nothing is written back: the profile no longer counts as
   * unassigned, so the ticker selection is not offered again.
   */
  lemma NullDataLeavesTickerOnly(profiles: seq<Profile>, id: int, ticker: string)
    requires HasProfile(profiles, id) && ticker != ""
    ensures var r := MergeTicker(profiles, id, ticker, Resolved(None));
            var i := FindProfile(profiles, id);
            r.written.Err? && !Unassigned(r.profiles[i]) && r.profiles[i].data.plot == profiles[i].data.plot
  {
  }

  /**
   * The profile list the component holds, as last fetched from the backend. Its
   * elements are the objects `updateTicker` changes in place.
   */
  class Profiles {
    var profiles: seq<Profile>

    /** The list as set from a backend response. */
    constructor (fetched: seq<Profile>)
      ensures profiles == fetched
    {
      profiles := fetched;
    }

    /**
     * The merge step of `updateTicker`: find the profile, send the prediction
     * request, and write the three fields of the profile found once the response
     * is in, one after the other. Returns the record then sent to the backend, or
     * why the step threw; a throw after the first write leaves that write in place.
     */
    method UpdateTicker(id: int, ticker: string, outcome: PredictionOutcome)
      returns (written: Result<Profile, UpdateError>)
      modifies this
      ensures profiles == MergeTicker(old(profiles), id, ticker, outcome).profiles
      ensures written == MergeTicker(old(profiles), id, ticker, outcome).written
    {
      var i := FindProfile(profiles, id);
      if outcome.Rejected? {
        return Err(PredictionFailed);
      }
      if i < 0 {
        return Err(NoSuchProfile);
      }
      var profileToUpdate := profiles[i];
      profileToUpdate := profileToUpdate.(data := profileToUpdate.data.(ticker := ticker));
      profiles := profiles[i := profileToUpdate];
      if outcome.body.None? {
        // response.data is null: reading its plot throws
        return Err(NoResponseData);
      }
      var response := outcome.body.value;
      profileToUpdate := profileToUpdate.(data := profileToUpdate.data.(plot := response.plot));
      profileToUpdate := profileToUpdate.(data := profileToUpdate.data.(riskOutput := response.riskOutput));
      profiles := profiles[i := profileToUpdate];
      written := Ok(profileToUpdate);
    }
  }
}
