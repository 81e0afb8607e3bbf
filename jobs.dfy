/** Job construction: the default descriptors per job kind, `schedule_job`
    and `schedule_bundleId`. The backend's `post_job` is a foreign call; only
    the truthiness of the job id it returns is modelled, as `accepted`. */
module Jobs {
  import opened Values
  import opened Merging

  /** `_default_runjob` */
  function DefaultRunJob(): Mapping
  {
    map[
      "type" := Str("run_app"),
      "state" := Str("pending"),
      "jobInfo" := Dict(map["appType" := Str("AppStoreApp")])
    ]
  }

  /** `_default_dioscopejob` */
  function DefaultDioscopeJob(): Mapping
  {
    map[
      "type" := Str("dioscope"),
      "state" := Str("pending"),
      "jobInfo" := Dict(map["appType" := Str("AppStoreApp")])
    ]
  }

  /** The template `schedule_job` starts from: the dioscope one for the kind
      `'dioscope'`, the run one for every other kind. */
  function DefaultJob(kind: string): Mapping
  {
    if kind == "dioscope" then DefaultDioscopeJob() else DefaultRunJob()
  }

  /** The type name a descriptor of the given kind starts with: the one its
      template holds. */
  function KindType(kind: string): string
  {
    DefaultJob(kind)["type"].s
  }

  /** Template choice: only `'dioscope'` selects the dioscope template; any
      other string, unknown ones included, gives the same template as `'run'`.
      Both templates start pending with an App Store app type. */
  lemma DefaultJobShape(kind: string)
    ensures DefaultJob(kind).Keys == {"type", "state", "jobInfo"}
    ensures DefaultJob(kind)["type"] == Str(KindType(kind))
    ensures KindType(kind) == "run_app" <==> kind != "dioscope"
    ensures kind != "dioscope" ==> DefaultJob(kind) == DefaultJob("run")
    ensures DefaultJob(kind)["state"] == Str("pending")
    ensures DefaultJob(kind)["jobInfo"] == Dict(map["appType" := Str("AppStoreApp")])
  {
  }

  /** Whatever the override leaves unset keeps the template's value: the
      kind's type, the pending state and the App Store app type. */
  lemma DefaultsSurvive(kind: string, jobDict: Mapping)
    requires Mergeable(DefaultJob(kind), Dict(jobDict))
    ensures At(Dict(jobDict), ["type"]) == None ==>
              At(Dict(Merge(DefaultJob(kind), Dict(jobDict))), ["type"]) == Some(Str(KindType(kind)))
    ensures At(Dict(jobDict), ["state"]) == None ==>
              At(Dict(Merge(DefaultJob(kind), Dict(jobDict))), ["state"]) == Some(Str("pending"))
    ensures At(Dict(jobDict), ["jobInfo", "appType"]) == None ==>
              At(Dict(Merge(DefaultJob(kind), Dict(jobDict))), ["jobInfo", "appType"]) == Some(Str("AppStoreApp"))
  {
    var t := DefaultJob(kind);
    assert At(Dict(t), ["type"]) == Some(Str(KindType(kind)));
    assert At(Dict(t), ["state"]) == Some(Str("pending"));
    assert At(Dict(t), ["jobInfo", "appType"]) == Some(Str("AppStoreApp")) by {
      assert At(Dict(t), ["jobInfo", "appType"]) == At(t["jobInfo"], ["appType"]);
    }
    if At(Dict(jobDict), ["type"]) == None {
      MergeBaseSurvives(t, Dict(jobDict), ["type"], Str(KindType(kind)));
    }
    if At(Dict(jobDict), ["state"]) == None {
      MergeBaseSurvives(t, Dict(jobDict), ["state"], Str("pending"));
    }
    if At(Dict(jobDict), ["jobInfo", "appType"]) == None {
      MergeBaseSurvives(t, Dict(jobDict), ["jobInfo", "appType"], Str("AppStoreApp"));
    }
  }

  /** schedule_job: merges the caller's dictionary into the kind's template
      and posts the result. The merge's AttributeError propagates, and then
      nothing is posted; otherwise the outcome is the truthiness of the job
      id the backend returned. */
  method ScheduleJob(jobDict: Mapping, kind: string, accepted: bool) returns (posted: MergeOutcome, ok: bool)
    ensures posted.Merged? <==> Mergeable(DefaultJob(kind), Dict(jobDict))
    ensures posted.Merged? ==> posted.result == Merge(DefaultJob(kind), Dict(jobDict))
    ensures posted.Merged? && At(Dict(jobDict), ["type"]) == None ==>
              At(Dict(posted.result), ["type"]) == Some(Str(KindType(kind)))
    ensures posted.Merged? && At(Dict(jobDict), ["state"]) == None ==>
              At(Dict(posted.result), ["state"]) == Some(Str("pending"))
    ensures posted.Merged? && At(Dict(jobDict), ["jobInfo", "appType"]) == None ==>
              At(Dict(posted.result), ["jobInfo", "appType"]) == Some(Str("AppStoreApp"))
    ensures ok <==> posted.Merged? && accepted
  {
    var job: Mapping;
    if kind == "dioscope" {
      job := DefaultDioscopeJob();
    } else {
      job := DefaultRunJob();
    }
    posted := DictMerge(job, Dict(jobDict));
    if posted.Merged? {
      DefaultsSurvive(kind, jobDict);
    }
    ok := posted.Merged? && accepted;
  }

  /** `{key}` when `present`, the empty set otherwise. */
  function KeyIf(key: string, present: bool): set<string>
  {
    if present then {key} else {}
  }

  /** The `jobInfo` part of that dictionary: the bundle id always, and the
      account, store country and execution strategy only when truthy. */
  function JobInfoOverride(bundleId: string, account: Option<string>, country: Option<string>,
                           strategy: Option<string>): Mapping
  {
    var info := map["bundleId" := Str(bundleId)];
    var info := if TruthyStr(account) then info["accountId" := Str(account.value)] else info;
    var info := if TruthyStr(country) then info["storeCountry" := Str(country.value)] else info;
    if TruthyStr(strategy) then info["executionStrategy" := Str(strategy.value)] else info
  }

  /** The `jobInfo` override always holds the bundle id; the account, store
      country and execution strategy are present exactly when truthy, and
      then hold the argument. */
  lemma JobInfoOverrideShape(bundleId: string, account: Option<string>, country: Option<string>,
                             strategy: Option<string>, info: Mapping)
    requires info == JobInfoOverride(bundleId, account, country, strategy)
    ensures info.Keys ==
              {"bundleId"} + KeyIf("accountId", TruthyStr(account)) + KeyIf("storeCountry", TruthyStr(country))
              + KeyIf("executionStrategy", TruthyStr(strategy))
    ensures info["bundleId"] == Str(bundleId)
    ensures TruthyStr(account) ==> info["accountId"] == Str(account.value)
    ensures TruthyStr(country) ==> info["storeCountry"] == Str(country.value)
    ensures TruthyStr(strategy) ==> info["executionStrategy"] == Str(strategy.value)
  {
  }

  /** The dictionary `schedule_bundleId` hands to `schedule_job`: `jobInfo`
      always, and the worker and device only when truthy. */
  function Override(bundleId: string, worker: Option<Value>, device: Option<Value>,
                    account: Option<string>, country: Option<string>, strategy: Option<string>): Mapping
  {
    var o := if Truthy(worker) then map["worker" := worker.value] else map[];
    var o := if Truthy(device) then o["device" := device.value] else o;
    o["jobInfo" := Dict(JobInfoOverride(bundleId, account, country, strategy))]
  }

  /** The override always has `jobInfo`, holding the `jobInfo` override; the
      worker and device are present exactly when truthy, and then hold the
      argument; there is no other key. */
  lemma OverrideShape(bundleId: string, worker: Option<Value>, device: Option<Value>,
                      account: Option<string>, country: Option<string>, strategy: Option<string>, o: Mapping)
    requires o == Override(bundleId, worker, device, account, country, strategy)
    ensures o.Keys == {"jobInfo"} + KeyIf("worker", Truthy(worker)) + KeyIf("device", Truthy(device))
    ensures o["jobInfo"] == Dict(JobInfoOverride(bundleId, account, country, strategy))
    ensures Truthy(worker) ==> o["worker"] == worker.value
    ensures Truthy(device) ==> o["device"] == device.value
  {
  }

  /** An override built by `schedule_bundleId` never makes the merge fail. */
  lemma OverrideMergeable(o: Mapping, kind: string)
    requires o.Keys <= {"jobInfo", "worker", "device"}
    requires "jobInfo" in o ==> o["jobInfo"].Dict?
    ensures Mergeable(DefaultJob(kind), Dict(o))
  {
    var t := DefaultJob(kind);
    if "jobInfo" in o {
      assert Mergeable(t["jobInfo"].entries, o["jobInfo"]);
    }
  }

  /** The descriptor `schedule_bundleId` posts: the kind's template with the
      override merged in. */
  function BundleJob(bundleId: string, worker: Option<Value>, device: Option<Value>,
                     account: Option<string>, country: Option<string>, strategy: Option<string>,
                     kind: string): Mapping
  {
    var o := Override(bundleId, worker, device, account, country, strategy);
    OverrideShape(bundleId, worker, device, account, country, strategy, o);
    OverrideMergeable(o, kind);
    Merge(DefaultJob(kind), Dict(o))
  }

  /** Merging an override shaped like `schedule_bundleId`'s into a template
      keeps the template's type and state, adds the override's worker and
      device as they are, and merges the two `jobInfo` dictionaries. */
  lemma MergeBundleOverride(o: Mapping, kind: string)
    requires o.Keys <= {"jobInfo", "worker", "device"}
    requires "jobInfo" in o && o["jobInfo"].Dict?
    ensures Mergeable(DefaultJob(kind), Dict(o))
    ensures var d := Merge(DefaultJob(kind), Dict(o));
      && d.Keys == {"type", "state"} + o.Keys
      && d["type"] == Str(KindType(kind))
      && d["state"] == Str("pending")
      && (forall k :: k in o && k != "jobInfo" ==> d[k] == o[k])
      && d["jobInfo"] == Dict(Merge(map["appType" := Str("AppStoreApp")], o["jobInfo"]))
  {
    OverrideMergeable(o, kind);
    MergeTopLevel(DefaultJob(kind), Dict(o));
  }

  /** The top level of every descriptor `schedule_bundleId` posts: the
      kind's type, the pending state, `jobInfo`, and the worker and device
      exactly when the argument is truthy, holding it. Nothing else. */
  lemma BundleJobTopLevel(bundleId: string, worker: Option<Value>, device: Option<Value>,
                          account: Option<string>, country: Option<string>, strategy: Option<string>,
                          kind: string, d: Mapping)
    requires d == BundleJob(bundleId, worker, device, account, country, strategy, kind)
    ensures d.Keys == {"type", "state", "jobInfo"} + KeyIf("worker", Truthy(worker)) + KeyIf("device", Truthy(device))
    ensures d["type"] == Str(KindType(kind))
    ensures d["state"] == Str("pending")
    ensures Truthy(worker) ==> d["worker"] == worker.value
    ensures Truthy(device) ==> d["device"] == device.value
  {
    var o := Override(bundleId, worker, device, account, country, strategy);
    OverrideShape(bundleId, worker, device, account, country, strategy, o);
    MergeBundleOverride(o, kind);
  }

  /** The `jobInfo` of every descriptor `schedule_bundleId` posts: the App
      Store app type and the bundle id always; the account, store country and
      execution strategy exactly when the argument is truthy, holding it.
      Nothing else. */
  lemma BundleJobInfo(bundleId: string, worker: Option<Value>, device: Option<Value>,
                      account: Option<string>, country: Option<string>, strategy: Option<string>,
                      kind: string, d: Mapping)
    requires d == BundleJob(bundleId, worker, device, account, country, strategy, kind)
    ensures "jobInfo" in d && d["jobInfo"].Dict?
    ensures d["jobInfo"].entries.Keys ==
              {"appType", "bundleId"} + KeyIf("accountId", TruthyStr(account))
              + KeyIf("storeCountry", TruthyStr(country)) + KeyIf("executionStrategy", TruthyStr(strategy))
    ensures d["jobInfo"].entries["appType"] == Str("AppStoreApp")
    ensures d["jobInfo"].entries["bundleId"] == Str(bundleId)
    ensures TruthyStr(account) ==> d["jobInfo"].entries["accountId"] == Str(account.value)
    ensures TruthyStr(country) ==> d["jobInfo"].entries["storeCountry"] == Str(country.value)
    ensures TruthyStr(strategy) ==> d["jobInfo"].entries["executionStrategy"] == Str(strategy.value)
  {
    BundleJobInfoMerged(bundleId, worker, device, account, country, strategy, kind, d);
    MergedJobInfo(bundleId, account, country, strategy, d["jobInfo"].entries);
  }

  /** The templates' `jobInfo` with a `jobInfo` override merged in: the App
      Store app type, the bundle id, and each optional argument exactly when
      it is truthy. */
  lemma MergedJobInfo(bundleId: string, account: Option<string>, country: Option<string>,
                      strategy: Option<string>, m: Mapping)
    requires Mergeable(map["appType" := Str("AppStoreApp")], Dict(JobInfoOverride(bundleId, account, country, strategy)))
    requires m == Merge(map["appType" := Str("AppStoreApp")], Dict(JobInfoOverride(bundleId, account, country, strategy)))
    ensures m.Keys ==
              {"appType", "bundleId"} + KeyIf("accountId", TruthyStr(account))
              + KeyIf("storeCountry", TruthyStr(country)) + KeyIf("executionStrategy", TruthyStr(strategy))
    ensures m["appType"] == Str("AppStoreApp")
    ensures m["bundleId"] == Str(bundleId)
    ensures TruthyStr(account) ==> m["accountId"] == Str(account.value)
    ensures TruthyStr(country) ==> m["storeCountry"] == Str(country.value)
    ensures TruthyStr(strategy) ==> m["executionStrategy"] == Str(strategy.value)
  {
    var info := JobInfoOverride(bundleId, account, country, strategy);
    JobInfoOverrideShape(bundleId, account, country, strategy, info);
    MergeInfoOverride(info);
  }

  /** The `jobInfo` of a posted descriptor is the templates' `jobInfo` with
      the `jobInfo` override merged in. */
  lemma BundleJobInfoMerged(bundleId: string, worker: Option<Value>, device: Option<Value>,
                            account: Option<string>, country: Option<string>, strategy: Option<string>,
                            kind: string, d: Mapping)
    requires d == BundleJob(bundleId, worker, device, account, country, strategy, kind)
    ensures Mergeable(map["appType" := Str("AppStoreApp")], Dict(JobInfoOverride(bundleId, account, country, strategy)))
    ensures "jobInfo" in d
    ensures d["jobInfo"] ==
              Dict(Merge(map["appType" := Str("AppStoreApp")], Dict(JobInfoOverride(bundleId, account, country, strategy))))
  {
    var o := Override(bundleId, worker, device, account, country, strategy);
    OverrideShape(bundleId, worker, device, account, country, strategy, o);
    MergeBundleOverride(o, kind);
  }

  /** Merging a `jobInfo` override without an app type into the templates'
      `jobInfo` adds the App Store app type and nothing else. */
  lemma MergeInfoOverride(info: Mapping)
    requires "appType" !in info
    ensures Mergeable(map["appType" := Str("AppStoreApp")], Dict(info))
    ensures var m := Merge(map["appType" := Str("AppStoreApp")], Dict(info));
      && m.Keys == {"appType"} + info.Keys
      && m["appType"] == Str("AppStoreApp")
      && forall k :: k in info ==> m[k] == info[k]
  {
    MergeTopLevel(map["appType" := Str("AppStoreApp")], Dict(info));
  }

  /** The first half of schedule_bundleId: builds the override step by
      step, as the source does. The nested `jobInfo` dictionary is filled
      under its own name and stored at the end, which leaves the same
      dictionary as updating it in place. */
  method BuildOverride(bundleId: string, worker: Option<Value>, device: Option<Value>,
                       account: Option<string>, country: Option<string>, strategy: Option<string>)
    returns (jobDict: Mapping)
    ensures jobDict == Override(bundleId, worker, device, account, country, strategy)
  {
    var info := map["bundleId" := Str(bundleId)];
    jobDict := map[];
    if Truthy(worker) {
      jobDict := jobDict["worker" := worker.value];
    }
    if Truthy(device) {
      jobDict := jobDict["device" := device.value];
    }
    if TruthyStr(account) {
      info := info["accountId" := Str(account.value)];
    }
    if TruthyStr(country) {
      info := info["storeCountry" := Str(country.value)];
    }
    if TruthyStr(strategy) {
      info := info["executionStrategy" := Str(strategy.value)];
    }
    assert info == JobInfoOverride(bundleId, account, country, strategy);
    jobDict := jobDict["jobInfo" := Dict(info)];
  }

  /** schedule_bundleId: builds the override and schedules it with the given
      kind; the merge cannot fail, so the outcome is the backend's answer. */
  method ScheduleBundleId(bundleId: string, worker: Option<Value>, device: Option<Value>,
                          account: Option<string>, country: Option<string>, strategy: Option<string>,
                          kind: string, accepted: bool) returns (job: Mapping, ok: bool)
    ensures job == BundleJob(bundleId, worker, device, account, country, strategy, kind)
    ensures ok == accepted
  {
    var jobDict := BuildOverride(bundleId, worker, device, account, country, strategy);
    OverrideShape(bundleId, worker, device, account, country, strategy, jobDict);
    OverrideMergeable(jobDict, kind);
    var posted;
    posted, ok := ScheduleJob(jobDict, kind, accepted);
    job := posted.result;
  }
}
