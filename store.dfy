/**
 * The persistence contract of `app/models.py` (`Database`): a device table with
 * auto-incremented ids and a review table keyed by `(device_id, item_index)`, modelled as
 * maps instead of SQLite tables.
 */
module Store {
  import opened Wrappers

  /** A row of the `devices` table (without its id). */
  datatype Device = Device(
    name: string,
    hostname: Option<string>,
    notes: Option<string>,
    mgmtIp: Option<string>,
    sshUser: Option<string>)

  /** A device as `get_all_devices` returns it: the row with its id. */
  datatype DeviceRow = DeviceRow(id: int, device: Device)

  /** A row of the `reviews` table: a raw status string and an optional note. */
  datatype Review = Review(status: string, note: Option<string>)

  /** The review table's primary key `(device_id, item_index)`. */
  type ReviewKey = (int, int)

  /** `x or None`: an empty form field is stored as NULL. */
  function NoneIfEmpty(s: string): (r: Option<string>)
    ensures r.None? <==> s == ""
    ensures r.Some? ==> r.value == s
  {
    if s == "" then None else Some(s)
  }

  /** The row that `create_device` and `update_device` write. */
  function MakeDevice(name: string, hostname: string, notes: string, mgmtIp: string, sshUser: string): Device {
    Device(name, NoneIfEmpty(hostname), NoneIfEmpty(notes), NoneIfEmpty(mgmtIp), NoneIfEmpty(sshUser))
  }

  /** `INSERT ... ON CONFLICT(device_id, item_index) DO UPDATE`: last write wins. */
  function Upsert(reviews: map<ReviewKey, Review>, d: int, i: int, r: Review): map<ReviewKey, Review> {
    reviews[(d, i) := r]
  }

  /** `DELETE FROM reviews WHERE device_id = ?`. */
  function DropDevice(reviews: map<ReviewKey, Review>, d: int): (m: map<ReviewKey, Review>)
    ensures forall k :: k in m <==> k in reviews && k.0 != d
    ensures forall k :: k in m ==> m[k] == reviews[k]
  {
    map k | k in reviews && k.0 != d :: reviews[k]
  }

  /** `get_reviews_for_device`: item_index -> review, for one device. */
  function ReviewsOf(reviews: map<ReviewKey, Review>, d: int): (m: map<int, Review>)
    ensures forall i :: i in m <==> (d, i) in reviews
    ensures forall i :: i in m ==> m[i] == reviews[(d, i)]
  {
    map k | k in reviews && k.0 == d :: k.1 := reviews[k]
  }

  /** After `save_review(d, i, s, n)`, `get_reviews_for_device(d)[i]` is `{s, n}`. */
  lemma SaveThenGet(reviews: map<ReviewKey, Review>, d: int, i: int, r: Review)
    ensures i in ReviewsOf(Upsert(reviews, d, i, r), d)
    ensures ReviewsOf(Upsert(reviews, d, i, r), d)[i] == r
  {
  }

  /** A second save to the same key overwrites both fields of the first. */
  lemma SecondSaveOverwrites(reviews: map<ReviewKey, Review>, d: int, i: int, r1: Review, r2: Review)
    ensures Upsert(Upsert(reviews, d, i, r1), d, i, r2) == Upsert(reviews, d, i, r2)
  {
  }

  /** `save_review(d, i, ...)` leaves every other `(device, item_index)` entry as it was. */
  lemma SaveLeavesOtherKeys(reviews: map<ReviewKey, Review>, d: int, i: int, r: Review, k: ReviewKey)
    requires k != (d, i)
    ensures k in Upsert(reviews, d, i, r) <==> k in reviews
    ensures k in reviews ==> Upsert(reviews, d, i, r)[k] == reviews[k]
  {
  }

  /** Saving for one device does not change what another device reads. */
  lemma SaveIsPerDevice(reviews: map<ReviewKey, Review>, d: int, i: int, r: Review, other: int)
    requires other != d
    ensures ReviewsOf(Upsert(reviews, d, i, r), other) == ReviewsOf(reviews, other)
  {
    var a := ReviewsOf(Upsert(reviews, d, i, r), other);
    var b := ReviewsOf(reviews, other);
    assert a.Keys == b.Keys;
  }

  /** After the cascade delete the device has no reviews; other devices keep theirs. */
  lemma DeleteCascades(reviews: map<ReviewKey, Review>, d: int, other: int)
    requires other != d
    ensures ReviewsOf(DropDevice(reviews, d), d) == map[]
    ensures ReviewsOf(DropDevice(reviews, d), other) == ReviewsOf(reviews, other)
  {
    var a := ReviewsOf(DropDevice(reviews, d), other);
    var b := ReviewsOf(reviews, other);
    assert a.Keys == b.Keys;
  }

  /** A device that never had a review reads back an empty map. */
  lemma NoReviewsIsEmpty(reviews: map<ReviewKey, Review>, d: int)
    requires forall k :: k in reviews ==> k.0 != d
    ensures ReviewsOf(reviews, d) == map[]
  {
    assert ReviewsOf(reviews, d).Keys == {};
  }

  predicate Increasing(s: seq<int>) {
    forall a, b :: 0 <= a < b < |s| ==> s[a] < s[b]
  }

  /** `s` with every occurrence of `x` removed, order kept. */
  function Without(s: seq<int>, x: int): (r: seq<int>)
    ensures forall y :: y in r <==> y in s && y != x
  {
    if s == [] then []
    else if s[0] == x then Without(s[1..], x)
    else [s[0]] + Without(s[1..], x)
  }

  lemma {:induction false} WithoutIncreasing(s: seq<int>, x: int)
    requires Increasing(s)
    ensures Increasing(Without(s, x))
  {
    if s != [] {
      WithoutIncreasing(s[1..], x);
      var rest := Without(s[1..], x);
      if s[0] != x {
        forall y | y in rest ensures s[0] < y {
          var b :| 0 <= b < |s[1..]| && s[1..][b] == y;
          assert s[b + 1] == y;
        }
        var r := [s[0]] + rest;
        forall a, b | 0 <= a < b < |r| ensures r[a] < r[b] {
          if a > 0 {
            assert r[a] == rest[a - 1] && r[b] == rest[b - 1];
          } else {
            assert r[b] in rest;
          }
        }
      }
    }
  }

  class Database {
    /** `devices` table: id -> row. */
    var devices: map<int, Device>
    /** The ids of `devices` in ascending order (what `ORDER BY id` walks). */
    var ids: seq<int>
    /** `reviews` table. */
    var reviews: map<ReviewKey, Review>
    /** The AUTOINCREMENT counter: the largest id ever handed out. */
    var lastId: int

    ghost predicate Valid()
      reads this
    {
      && lastId >= 0
      && Increasing(ids)
      && (forall id :: id in devices <==> id in ids)
      && (forall id :: id in ids ==> 1 <= id <= lastId)
    }

    /** `init_db` on a fresh database file. */
    constructor ()
      ensures Valid()
      ensures devices == map[] && reviews == map[] && ids == [] && lastId == 0
    {
      devices, ids, reviews, lastId := map[], [], map[], 0;
    }

    /** `get_device`: the row, or None. */
    function GetDevice(id: int): (r: Option<Device>)
      reads this
      ensures r.Some? <==> id in devices
      ensures r.Some? ==> r.value == devices[id]
    {
      if id in devices then Some(devices[id]) else None
    }

    /** `get_all_devices`: every device, in ascending id order. */
    method GetAllDevices() returns (rows: seq<DeviceRow>)
      requires Valid()
      ensures |rows| == |ids|
      ensures forall j :: 0 <= j < |rows| ==> rows[j].id in devices && rows[j].device == devices[rows[j].id]
      ensures forall a, b :: 0 <= a < b < |rows| ==> rows[a].id < rows[b].id
      ensures forall id :: id in devices ==> exists j :: 0 <= j < |rows| && rows[j].id == id
    {
      rows := [];
      var j := 0;
      while j < |ids|
        invariant 0 <= j <= |ids|
        invariant |rows| == j
        invariant forall a :: 0 <= a < j ==> rows[a].id == ids[a] && rows[a].device == devices[ids[a]]
      {
        assert ids[j] in ids;
        rows := rows + [DeviceRow(ids[j], devices[ids[j]])];
        j := j + 1;
      }
      forall id | id in devices
        ensures exists a :: 0 <= a < |rows| && rows[a].id == id
      {
        var a :| 0 <= a < |ids| && ids[a] == id;
        assert rows[a].id == id;
      }
    }

    /** `create_device`: inserts a row with empty optional fields as NULL; returns its new id. */
    method CreateDevice(name: string, hostname: string, notes: string, mgmtIp: string, sshUser: string)
      returns (id: int)
      requires Valid()
      modifies this
      ensures Valid()
      ensures id >= 1 && id !in old(devices)
      ensures forall other :: other in old(devices) ==> other < id
      ensures devices == old(devices)[id := MakeDevice(name, hostname, notes, mgmtIp, sshUser)]
      ensures reviews == old(reviews)
      ensures ids == old(ids) + [id] && lastId == id == old(lastId) + 1
    {
      id := lastId + 1;
      forall a | 0 <= a < |ids|
        ensures ids[a] < id
      {
        assert ids[a] in ids;
      }
      lastId := id;
      devices := devices[id := MakeDevice(name, hostname, notes, mgmtIp, sshUser)];
      ids := ids + [id];
    }

    /** `update_device`: rewrites every field of an existing row; an unknown id changes nothing. */
    method UpdateDevice(id: int, name: string, hostname: string, notes: string, mgmtIp: string, sshUser: string)
      requires Valid()
      modifies this
      ensures Valid()
      ensures devices == if id in old(devices) then old(devices)[id := MakeDevice(name, hostname, notes, mgmtIp, sshUser)] else old(devices)
      ensures reviews == old(reviews)
      ensures ids == old(ids) && lastId == old(lastId)
    {
      if id in devices {
        devices := devices[id := MakeDevice(name, hostname, notes, mgmtIp, sshUser)];
      }
    }

    /** `delete_device_and_reviews`: drops the device row and all of its reviews. */
    method DeleteDeviceAndReviews(id: int)
      requires Valid()
      modifies this
      ensures Valid()
      ensures reviews == DropDevice(old(reviews), id)
      ensures devices == old(devices) - {id}
      ensures GetDevice(id) == None
      ensures ids == Without(old(ids), id) && lastId == old(lastId)
    {
      reviews := DropDevice(reviews, id);
      devices := devices - {id};
      WithoutIncreasing(ids, id);
      ids := Without(ids, id);
    }

    /** `get_reviews_for_device`. */
    function GetReviewsForDevice(d: int): (m: map<int, Review>)
      reads this
      ensures forall i :: i in m <==> (d, i) in reviews
      ensures forall i :: i in m ==> m[i] == reviews[(d, i)]
    {
      ReviewsOf(reviews, d)
    }

    /** `save_review`: upsert of `(device_id, item_index)`; the device table is untouched. */
    method SaveReview(d: int, i: int, status: string, note: Option<string>)
      requires Valid()
      modifies this
      ensures Valid()
      ensures reviews == Upsert(old(reviews), d, i, Review(status, note))
      ensures devices == old(devices) && ids == old(ids) && lastId == old(lastId)
    {
      reviews := Upsert(reviews, d, i, Review(status, note));
    }
  }
}
