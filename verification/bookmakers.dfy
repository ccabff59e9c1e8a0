/** Entries and the sort-mode dispatch of `sortBookmakers` (script.js). */
module Bookmakers {
  import opened Wrappers
  import opened Sorting

  /** One bookmaker as it arrives from `bookmakers.json`. `reviewsCount` is
      the JSON `reviews_count`; `bonus` is the bonus as text (`String(bonus)`
      in the source), `None` when absent or null; `reliability` is `None` when
      absent. `display` stands for the fields only the renderer reads (logo,
      verified flag, badges, links): the ordering never looks at it, so two
      entries that tie on every sort field are still told apart by it. */
  datatype Entry = Entry(
    reviewsCount: nat,
    rating: real,
    bonus: Option<string>,
    reliability: Option<real>,
    display: string)

  /** The ordering a tab asks for. Only `BySubrating` carries the sub-criterion. */
  datatype Mode = ByUser | ByEditors | ByBonus | BySubrating(id: Option<string>) | Other

  /** The one sub-criterion the source recognises. */
  const Reliability: string := "reliability"

  /** The `type` query parameter that selects each known mode. */
  const ByUserName: string := "byuser"
  const ByEditorsName: string := "byeditors"
  const ByBonusName: string := "bybonus"
  const BySubratingName: string := "bysubrating"

  /** The `switch (type)` of the source: a known name selects its mode, any
      other string falls to the default branch. */
  function ModeOf(kind: string, subratingId: Option<string>): (m: Mode)
    ensures m.Other? <==> kind !in {ByUserName, ByEditorsName, ByBonusName, BySubratingName}
    ensures m.BySubrating? ==> m.id == subratingId
    ensures !m.Other? ==> TabParameters(m).0 == kind
  {
    if kind == ByUserName then ByUser
    else if kind == ByEditorsName then ByEditors
    else if kind == ByBonusName then ByBonus
    else if kind == BySubratingName then BySubrating(subratingId)
    else Other
  }

  /** The `type` and `id` parameters a tab carries to request a known mode. */
  function TabParameters(m: Mode): (p: (string, Option<string>))
    requires !m.Other?
  {
    match m
    case ByUser => (ByUserName, None)
    case ByEditors => (ByEditorsName, None)
    case ByBonus => (ByBonusName, None)
    case BySubrating(id) => (BySubratingName, id)
  }

  /** Every known mode is reachable from the tab parameters that name it. */
  lemma ModeOfTabParameters(m: Mode)
    requires !m.Other?
    ensures ModeOf(TabParameters(m).0, TabParameters(m).1) == m
  {
  }

  /** `parseFloat(String(bonus)) || 0`: a missing or null bonus, an unparsable
      one (NaN, here `None`) and a parsed zero all count as 0. */
  function BonusValue(bonus: Option<string>, parseFloat: string -> Option<real>): (v: real)
    ensures bonus.None? ==> v == 0.0
    ensures bonus.Some? && parseFloat(bonus.value).None? ==> v == 0.0
    ensures bonus.Some? && parseFloat(bonus.value).Some? ==> v == parseFloat(bonus.value).value
  {
    match bonus
    case None => 0.0
    case Some(text) => parseFloat(text).GetOr(0.0)
  }

  /** `reliability || 0`: a missing reliability counts as 0. */
  function ReliabilityValue(reliability: Option<real>): (v: real)
    ensures reliability.None? ==> v == 0.0
    ensures reliability.Some? ==> v == reliability.value
  {
    reliability.GetOr(0.0)
  }

  function ReviewsKey(e: Entry): real {
    e.reviewsCount as real
  }

  function RatingKey(e: Entry): real {
    e.rating
  }

  function ReliabilityKey(e: Entry): real {
    ReliabilityValue(e.reliability)
  }

  /** The key each comparator of the source subtracts: `(a, b) => key(b) - key(a)`.
      Modes that do not reorder have no comparator; they get the zero key. */
  function ModeKey(mode: Mode, parseFloat: string -> Option<real>): (k: Entry -> real)
    ensures mode.ByUser? ==> forall e :: k(e) == e.reviewsCount as real
    ensures mode.ByEditors? ==> forall e :: k(e) == e.rating
    ensures mode.ByBonus? ==> forall e :: k(e) == BonusValue(e.bonus, parseFloat)
    ensures mode.BySubrating? ==> forall e :: k(e) == ReliabilityValue(e.reliability)
  {
    match mode
    case ByUser => ReviewsKey
    case ByEditors => RatingKey
    case ByBonus => (e: Entry) => BonusValue(e.bonus, parseFloat)
    case BySubrating(_) => ReliabilityKey
    case Other => (e: Entry) => 0.0
  }

  /** The modes that reorder; every other one returns the copy as it is. */
  predicate Reorders(m: Mode) {
    m.ByUser? || m.ByEditors? || m.ByBonus? || m == BySubrating(Some(Reliability))
  }

  /** `sortBookmakers`: a copy of `data` ordered by the mode's key, largest
      first, or the copy unchanged when the mode does not reorder. */
  function SortBy(data: seq<Entry>, mode: Mode, parseFloat: string -> Option<real>): (r: seq<Entry>)
    ensures |r| == |data| && multiset(r) == multiset(data)
    ensures mode.ByUser? ==>
      forall i, j :: 0 <= i < j < |r| ==> r[i].reviewsCount >= r[j].reviewsCount
    ensures mode.ByEditors? ==>
      forall i, j :: 0 <= i < j < |r| ==> r[i].rating >= r[j].rating
    ensures mode.ByBonus? ==>
      forall i, j :: 0 <= i < j < |r| ==>
        BonusValue(r[i].bonus, parseFloat) >= BonusValue(r[j].bonus, parseFloat)
    ensures mode == BySubrating(Some(Reliability)) ==>
      forall i, j :: 0 <= i < j < |r| ==>
        ReliabilityValue(r[i].reliability) >= ReliabilityValue(r[j].reliability)
    ensures !Reorders(mode) ==> r == data
  {
    if Reorders(mode) then SortDescending(data, ModeKey(mode, parseFloat)) else data
  }

  /** Whatever permutation a host sort returns for a reordering mode, as long
      as it is non-increasing on the mode's key it carries the same key at
      every position as `SortBy`: the model and the host differ at most in
      the order of ties. */
  lemma SortByAgreesWithAnyHostSort(
    data: seq<Entry>, mode: Mode, parseFloat: string -> Option<real>, host: seq<Entry>)
    requires Reorders(mode)
    requires multiset(host) == multiset(data)
    requires Descending(host, ModeKey(mode, parseFloat))
    ensures |host| == |data|
    ensures forall i :: 0 <= i < |host| ==>
      ModeKey(mode, parseFloat)(host[i]) == ModeKey(mode, parseFloat)(SortBy(data, mode, parseFloat)[i])
  {
    KeysDetermined(host, SortBy(data, mode, parseFloat), ModeKey(mode, parseFloat));
  }

  /** Three entries with 10, 30 and 20 reviews come out as 30, 20, 10 under `byuser`. */
  lemma ByUserExample(parseFloat: string -> Option<real>)
    ensures var r := SortBy(
        [Entry(10, 0.0, None, None, "a"), Entry(30, 0.0, None, None, "b"),
         Entry(20, 0.0, None, None, "c")],
        ModeOf(ByUserName, None), parseFloat);
      r == [Entry(30, 0.0, None, None, "b"), Entry(20, 0.0, None, None, "c"),
            Entry(10, 0.0, None, None, "a")]
  {
  }
}
