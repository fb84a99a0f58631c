/** The Experience record (lib/models/Experience.js): a bookable activity with an
    ordered list of dates, each holding an ordered list of time slots with a capacity
    (`available`) and a count of seats taken (`booked`). */
module ExperienceModel {
  import opened Wrappers

  datatype Slot = Slot(time: string, available: int, booked: int)

  datatype AvailableDate = AvailableDate(date: string, slots: seq<Slot>)

  datatype Experience = Experience(
    id: string,
    title: string,
    description: string,
    location: string,
    imageUrl: string,
    price: int,
    availableDates: seq<AvailableDate>,
    about: string,
    includesText: string,
    createdAt: int,
    updatedAt: int)

  const DefaultIncludesText: string := "Safety first with gear included"

  /** The fields handed to the schema for one slot; `None` is a field left undefined. */
  datatype SlotFields = SlotFields(time: string, available: Option<int>, booked: Option<int>)

  datatype DateFields = DateFields(date: string, slots: seq<SlotFields>)

  datatype ExperienceFields = ExperienceFields(
    title: string,
    description: string,
    location: string,
    imageUrl: string,
    price: Option<int>,
    availableDates: seq<DateFields>,
    about: string,
    includesText: Option<string>)

  /** A required String fails validation when it is missing or empty; a required
      Number when it is missing. */
  predicate RequiredString(s: string) { s != "" }

  /** Validation and defaults of one slot: `time` and `available` are required and an
      undefined `booked` starts at 0. */
  function BuildSlot(f: SlotFields): (r: Option<Slot>)
    ensures r.Some? <==> RequiredString(f.time) && f.available.Some?
    ensures r.Some? ==> r.value.time == f.time && r.value.available == f.available.value
    ensures r.Some? && f.booked.None? ==> r.value.booked == 0
    ensures r.Some? && f.booked.Some? ==> r.value.booked == f.booked.value
  {
    if RequiredString(f.time) && f.available.Some? then
      Some(Slot(f.time, f.available.value, f.booked.GetOr(0)))
    else None
  }

  function BuildSlots(fs: seq<SlotFields>): (r: Option<seq<Slot>>)
    ensures r.Some? <==> forall i :: 0 <= i < |fs| ==> BuildSlot(fs[i]).Some?
    ensures r.Some? ==> |r.value| == |fs|
    ensures r.Some? ==> forall i :: 0 <= i < |fs| ==> BuildSlot(fs[i]) == Some(r.value[i])
  {
    if fs == [] then Some([])
    else
      var head := BuildSlot(fs[0]);
      var tail := BuildSlots(fs[1..]);
      if head.Some? && tail.Some? then
        var r := [head.value] + tail.value;
        assert forall i :: 1 <= i < |fs| ==> fs[i] == fs[1..][i - 1];
        Some(r)
      else
        assert tail.None? ==> exists i :: 1 <= i < |fs| && BuildSlot(fs[i]).None? by {
          if tail.None? {
            var k :| 0 <= k < |fs[1..]| && BuildSlot(fs[1..][k]).None?;
            assert fs[k + 1] == fs[1..][k];
          }
        }
        None
  }

  /** Validation of one date entry: `date` is required, and so is every slot's. */
  function BuildDate(f: DateFields): (r: Option<AvailableDate>)
    ensures r.Some? <==> RequiredString(f.date) && BuildSlots(f.slots).Some?
    ensures r.Some? ==> r.value.date == f.date && Some(r.value.slots) == BuildSlots(f.slots)
  {
    var slots := BuildSlots(f.slots);
    if RequiredString(f.date) && slots.Some? then Some(AvailableDate(f.date, slots.value))
    else None
  }

  function BuildDates(fs: seq<DateFields>): (r: Option<seq<AvailableDate>>)
    ensures r.Some? <==> forall i :: 0 <= i < |fs| ==> BuildDate(fs[i]).Some?
    ensures r.Some? ==> |r.value| == |fs|
    ensures r.Some? ==> forall i :: 0 <= i < |fs| ==> BuildDate(fs[i]) == Some(r.value[i])
  {
    if fs == [] then Some([])
    else
      var head := BuildDate(fs[0]);
      var tail := BuildDates(fs[1..]);
      if head.Some? && tail.Some? then
        var r := [head.value] + tail.value;
        assert forall i :: 1 <= i < |fs| ==> fs[i] == fs[1..][i - 1];
        Some(r)
      else
        assert tail.None? ==> exists i :: 1 <= i < |fs| && BuildDate(fs[i]).None? by {
          if tail.None? {
            var k :| 0 <= k < |fs[1..]| && BuildDate(fs[1..][k]).None?;
            assert fs[k + 1] == fs[1..][k];
          }
        }
        None
  }

  /** `new Experience({...})` followed by the validation `save()` runs. `title`,
      `description`, `location`, `imageUrl`, `price` and `about` are required, an
      undefined `includesText` takes its default and both timestamps default to the
      current time `now`. */
  function BuildExperience(id: string, f: ExperienceFields, now: int): (r: Option<Experience>)
    ensures r.Some? <==>
      && RequiredString(f.title) && RequiredString(f.description)
      && RequiredString(f.location) && RequiredString(f.imageUrl)
      && f.price.Some? && RequiredString(f.about)
      && BuildDates(f.availableDates).Some?
    ensures r.Some? ==>
      && r.value.id == id && r.value.title == f.title && r.value.description == f.description
      && r.value.location == f.location && r.value.imageUrl == f.imageUrl
      && r.value.about == f.about && r.value.price == f.price.value
      && Some(r.value.availableDates) == BuildDates(f.availableDates)
      && r.value.createdAt == now && r.value.updatedAt == now
    ensures r.Some? && f.includesText.None? ==> r.value.includesText == DefaultIncludesText
    ensures r.Some? && f.includesText.Some? ==> r.value.includesText == f.includesText.value
  {
    var dates := BuildDates(f.availableDates);
    if && RequiredString(f.title) && RequiredString(f.description)
       && RequiredString(f.location) && RequiredString(f.imageUrl)
       && f.price.Some? && RequiredString(f.about) && dates.Some?
    then
      Some(Experience(id, f.title, f.description, f.location, f.imageUrl, f.price.value,
        dates.value, f.about, f.includesText.GetOr(DefaultIncludesText), now, now))
    else None
  }

  /** Every slot's `booked` lies between 0 and its capacity. */
  ghost predicate WithinCapacity(e: Experience) {
    forall i, j :: 0 <= i < |e.availableDates| && 0 <= j < |e.availableDates[i].slots| ==>
      0 <= e.availableDates[i].slots[j].booked <= e.availableDates[i].slots[j].available
  }

  /** A freshly created experience whose slots were given no `booked` count has
      every slot empty, so it is within capacity when no capacity is negative. */
  lemma {:induction false} NewExperienceWithinCapacity(id: string, f: ExperienceFields, now: int)
    requires BuildExperience(id, f, now).Some?
    requires forall i, j :: 0 <= i < |f.availableDates| && 0 <= j < |f.availableDates[i].slots| ==>
      f.availableDates[i].slots[j].booked.None?
      && f.availableDates[i].slots[j].available.Some?
      && f.availableDates[i].slots[j].available.value >= 0
    ensures WithinCapacity(BuildExperience(id, f, now).value)
  {
    var e := BuildExperience(id, f, now).value;
    forall i, j | 0 <= i < |e.availableDates| && 0 <= j < |e.availableDates[i].slots|
      ensures 0 <= e.availableDates[i].slots[j].booked <= e.availableDates[i].slots[j].available
    {
      assert BuildDate(f.availableDates[i]) == Some(e.availableDates[i]);
      assert BuildSlot(f.availableDates[i].slots[j]) == Some(e.availableDates[i].slots[j]);
    }
  }
}
