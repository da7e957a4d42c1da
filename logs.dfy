/**
 * The local parts of package `stlogs`: the numeric log levels and the audit data and tags that
 * an audit entry carries from one log call to the next.
 */
module AuditLogs {
  import opened Text

  /** `Level`: `10 * (iota + 1)` for DEBUG, INFO, WARN, ERROR and FATAL in that order. */
  type Level = int

  const DEBUG: Level := 10 * (0 + 1)
  const INFO: Level := 10 * (1 + 1)
  const WARN: Level := 10 * (2 + 1)
  const ERROR: Level := 10 * (3 + 1)
  const FATAL: Level := 10 * (4 + 1)

  /** The five levels, least severe first. */
  const Levels: seq<Level> := [DEBUG, INFO, WARN, ERROR, FATAL]

  /** `getLevel`: the local level of a logrus level name; "trace" is DEBUG, anything unknown INFO. */
  function GetLevel(level: string): (l: Level)
    ensures l in Levels
    ensures level == "trace" ==> l == DEBUG
    ensures level !in {"fatal", "error", "warning", "info", "debug", "trace"} ==> l == INFO
  {
    match level
    case "fatal" => FATAL
    case "error" => ERROR
    case "warning" => WARN
    case "info" => INFO
    case "debug" => DEBUG
    case "trace" => DEBUG
    case _ => INFO
  }

  /** The logrus name of each level (the one of the two for DEBUG that is not "trace"). */
  function LevelName(l: Level): (name: string)
    requires l in Levels
    ensures name in {"fatal", "error", "warning", "info", "debug"}
  {
    if l == FATAL then "fatal"
    else if l == ERROR then "error"
    else if l == WARN then "warning"
    else if l == INFO then "info"
    else "debug"
  }

  /** Every level is reached by its own name, so `getLevel` distinguishes all five levels. */
  lemma GetLevelOfName(l: Level)
    requires l in Levels
    ensures GetLevel(LevelName(l)) == l
  {
    var i :| 0 <= i < |Levels| && Levels[i] == l;
    assert l == 10 * (i + 1);
  }

  /** The names of the five levels map to 50, 40, 30, 20 and 10, and the order follows severity. */
  lemma LevelValues()
    ensures GetLevel("fatal") == 50 && GetLevel("error") == 40 && GetLevel("warning") == 30
    ensures GetLevel("info") == 20 && GetLevel("debug") == 10
    ensures forall i, j :: 0 <= i < j < |Levels| ==> Levels[i] < Levels[j]
  {
  }

  /** `InfoCtx`: the data and tags shared by the entries of one context. */
  class InfoCtx<V> {
    var auditData: map<string, V>
    var auditTags: seq<string>

    constructor (data: map<string, V>, tags: seq<string>)
      ensures auditData == data && auditTags == tags
    {
      auditData := data;
      auditTags := tags;
    }

    /**
     * `addTags`: append the tags, then keep each distinct tag once, in the (arbitrary) order the
     * set of them is iterated.
     */
    method AddTags(tags: seq<string>)
      modifies this
      ensures NoDuplicates(auditTags)
      ensures forall t :: t in auditTags <==> t in old(auditTags) || t in tags
      ensures auditData == old(auditData)
    {
      var all := auditTags + tags;
      var seen: set<string> := {};
      for i := 0 to |all|
        invariant forall t :: t in seen <==> t in all[..i]
      {
        seen := seen + {all[i]};
      }
      assert all[..|all|] == all;
      var reduced: seq<string> := [];
      var remaining := seen;
      while remaining != {}
        invariant remaining <= seen
        invariant NoDuplicates(reduced)
        invariant forall t :: t in seen <==> t in reduced || t in remaining
        invariant forall t :: t in reduced ==> t !in remaining
        decreases remaining
      {
        // Solver hint: a witness that the set is not empty, so the `:|` below can pick an element.
        ghost var chosen := AnyElement(remaining);
        var t :| t in remaining;
        reduced := reduced + [t];
        remaining := remaining - {t};
      }
      auditTags := reduced;
    }
  }

  /** `AuditEntry`: a log entry and the context information it writes with every line. */
  class AuditEntry<V> {
    var info: InfoCtx<V>

    constructor (info: InfoCtx<V>)
      ensures this.info == info
    {
      this.info := info;
    }

    /** `AddData`: set one key of the shared data; every other key and the tags stay as they were. */
    method AddData(key: string, value: V) returns (r: AuditEntry<V>)
      modifies info
      ensures r == this
      ensures info.auditData == old(info.auditData)[key := value]
      ensures info.auditTags == old(info.auditTags)
    {
      info.auditData := info.auditData[key := value];
      r := this;
    }

    /** `AddTag`: `addTags` of one tag. */
    method AddTag(tag: string) returns (r: AuditEntry<V>)
      modifies info
      ensures r == this
      ensures NoDuplicates(info.auditTags)
      ensures forall t :: t in info.auditTags <==> t in old(info.auditTags) || t == tag
      ensures info.auditData == old(info.auditData)
    {
      info.AddTags([tag]);
      r := this;
    }

    /** `AddTags`: `addTags` of several tags. */
    method AddTags(tags: seq<string>) returns (r: AuditEntry<V>)
      modifies info
      ensures r == this
      ensures NoDuplicates(info.auditTags)
      ensures forall t :: t in info.auditTags <==> t in old(info.auditTags) || t in tags
      ensures info.auditData == old(info.auditData)
    {
      info.AddTags(tags);
      r := this;
    }

    /** `copyInfo`: a new context holding the same data and tags, copied key by key. */
    method CopyInfo() returns (c: InfoCtx<V>)
      ensures fresh(c)
      ensures c.auditData == info.auditData && c.auditTags == info.auditTags
    {
      var newData: map<string, V> := map[];
      var keys := info.auditData.Keys;
      while keys != {}
        invariant keys <= info.auditData.Keys
        invariant forall k :: k in newData <==> k in info.auditData && k !in keys
        invariant forall k :: k in newData ==> newData[k] == info.auditData[k]
        decreases keys
      {
        // Solver hint: a witness that the set is not empty, so the `:|` below can pick an element.
        ghost var chosen := AnyElement(keys);
        var k :| k in keys;
        newData := newData[k := info.auditData[k]];
        keys := keys - {k};
      }
      var newTags: seq<string> := [] + info.auditTags;
      c := new InfoCtx(newData, newTags);
    }
  }
}
