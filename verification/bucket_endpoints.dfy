/**
 * The decisions of the bucket `post` (create) and `put` (update retention)
 * handlers, as pure functions of the request fields, the project limit, the
 * calendar and the storage client's answers. A reply is its HTTP status, the
 * storage actions the handler performed in order, and the id it reports.
 * A `Forbidden` from the retention computation becomes status 403.
 */
module BucketEndpoints {
  import opened Wrappers
  import RetentionDays
  import BucketIds

  datatype Action = CreateBucket(bucket: string) | ConfigureLifecycle(bucket: string, days: int)

  datatype Reply = Reply(status: int, actions: seq<Action>, id: Option<string>)

  /** What `create_bucket` returned: a dict with its `Location`, or anything else. */
  datatype CreateResponse = Created(location: string) | NotCreated(message: string)

  /** Python truthiness of the computed days: a non-zero count. */
  predicate DaysTruthy(days: Option<int>)
  {
    days.Some? && days.value != 0
  }

  /** `name` truthiness: present and non-empty. */
  predicate NameGiven(name: Option<string>)
  {
    name.Some? && name.value != ""
  }

  /** `str.lstrip('/')`: drops every leading '/'. */
  function LStripSlash(s: string): (r: string)
    ensures |r| <= |s| && r == s[|s| - |r|..]
    ensures forall i :: 0 <= i < |s| - |r| ==> s[i] == '/'
    ensures |r| == 0 || r[0] != '/'
    decreases |s|
  {
    if |s| > 0 && s[0] == '/' then LStripSlash(s[1..]) else s
  }

  /** Stripping twice strips nothing more. */
  lemma LStripSlashIdempotent(s: string)
    ensures LStripSlash(LStripSlash(s)) == LStripSlash(s)
  {
  }

  /**
   * `put`: with a name and a truthy day count it configures the lifecycle and
   * answers 200 (or 400 if the client raised); a falsy day count answers 400
   * without touching storage. `lifecycleRaises` is whether the client call
   * failed.
   */
  function Put(projectId: nat, name: Option<string>, limit: int, value: Option<int>, measure: Option<string>,
               calendar: RetentionDays.Calendar, lifecycleRaises: bool): (reply: Reply)
    ensures reply.status in {200, 400, 403}
    ensures reply.status == 403 <==>
              NameGiven(name) && RetentionDays.CalculateRetentionDays(limit, value, measure, calendar).Failure?
    ensures reply.actions != [] <==>
              NameGiven(name) && RetentionDays.CalculateRetentionDays(limit, value, measure, calendar).Success?
              && DaysTruthy(RetentionDays.CalculateRetentionDays(limit, value, measure, calendar).value)
    ensures reply.actions != [] ==>
              reply.actions == [ConfigureLifecycle(name.value, RetentionDays.CalculateRetentionDays(limit, value, measure, calendar).value.value)]
    ensures reply.status == 200 <==> reply.actions != [] && !lifecycleRaises
    ensures reply.actions != [] ==> reply.id == Some(BucketIds.BucketId(projectId, name.value))
    ensures reply.actions == [] ==> reply.id == None
    ensures forall a :: a in reply.actions ==> !a.CreateBucket? && a.days != 0
  {
    if !NameGiven(name) then Reply(400, [], None)
    else
      match RetentionDays.CalculateRetentionDays(limit, value, measure, calendar)
      case Failure(_) => Reply(403, [], None)
      case Success(days) =>
        if DaysTruthy(days) then
          var id := Some(BucketIds.BucketId(projectId, name.value));
          Reply(if lifecycleRaises then 400 else 200, [ConfigureLifecycle(name.value, days.value)], id)
        else Reply(400, [], None)
  }

  /**
   * `post`: the retention is computed before the bucket is created, so a
   * refused retention creates nothing. Otherwise the bucket is created; the
   * lifecycle is configured, with 200 and the `Location` stripped of leading
   * slashes as id, only if creation gave a non-empty `Location` and the day
   * count is truthy; else 400, with the bucket left in place.
   */
  function Post(name: Option<string>, limit: int, value: Option<int>, measure: Option<string>,
                calendar: RetentionDays.Calendar, created: CreateResponse): (reply: Reply)
    ensures reply.status in {200, 400, 403}
    ensures reply.status == 403 <==>
              NameGiven(name) && RetentionDays.CalculateRetentionDays(limit, value, measure, calendar).Failure?
    ensures reply.status == 403 || !NameGiven(name) ==> reply.actions == []
    ensures NameGiven(name) && reply.status != 403 ==> |reply.actions| >= 1 && reply.actions[0] == CreateBucket(name.value)
    ensures reply.status == 200 <==>
              NameGiven(name) && created.Created? && created.location != ""
              && RetentionDays.CalculateRetentionDays(limit, value, measure, calendar).Success?
              && DaysTruthy(RetentionDays.CalculateRetentionDays(limit, value, measure, calendar).value)
    ensures reply.status == 200 ==>
              reply.actions == [CreateBucket(name.value),
                                ConfigureLifecycle(name.value, RetentionDays.CalculateRetentionDays(limit, value, measure, calendar).value.value)]
              && reply.id == Some(LStripSlash(created.location))
    ensures reply.status != 200 ==> forall a :: a in reply.actions ==> !a.ConfigureLifecycle?
    ensures NameGiven(name) && reply.status == 400 ==> reply.actions == [CreateBucket(name.value)]
    ensures reply.status != 200 ==> reply.id == None
  {
    if !NameGiven(name) then Reply(400, [], None)
    else
      match RetentionDays.CalculateRetentionDays(limit, value, measure, calendar)
      case Failure(_) => Reply(403, [], None)
      case Success(days) =>
        if created.Created? && created.location != "" && DaysTruthy(days) then
          Reply(200, [CreateBucket(name.value), ConfigureLifecycle(name.value, days.value)], Some(LStripSlash(created.location)))
        else Reply(400, [CreateBucket(name.value)], None)
  }

  /**
   * An unlimited project and no retention fields: the days are `-1 or None`,
   * i.e. -1, which is truthy, so both handlers configure a -1-day lifecycle.
   */
  lemma UnlimitedWithoutSpec(projectId: nat, bucket: string, location: string, calendar: RetentionDays.Calendar)
    requires bucket != "" && location != ""
    ensures Put(projectId, Some(bucket), RetentionDays.Unlimited, None, None, calendar, false).actions
            == [ConfigureLifecycle(bucket, -1)]
    ensures Post(Some(bucket), RetentionDays.Unlimited, None, None, calendar, Created(location)).actions
            == [CreateBucket(bucket), ConfigureLifecycle(bucket, -1)]
  {
  }

  /**
   * A project limit of 0 and no retention fields: `put` refuses without a
   * storage call, while `post` still creates the bucket and then answers 400.
   */
  lemma ZeroLimitWithoutSpec(projectId: nat, bucket: string, calendar: RetentionDays.Calendar,
                             lifecycleRaises: bool, created: CreateResponse)
    requires bucket != ""
    ensures Put(projectId, Some(bucket), 0, None, None, calendar, lifecycleRaises) == Reply(400, [], None)
    ensures Post(Some(bucket), 0, None, None, calendar, created) == Reply(400, [CreateBucket(bucket)], None)
  {
  }
}
