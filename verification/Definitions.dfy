/** Projection and policy definitions, and the validation they pass before they are
    registered (go/internal/readmodel/types.go). */
module Definitions {
  import opened Basics
  import opened JsonValues
  import Paths

  datatype OpRule = OpRule(op: string, key: string, sets: map<string, Json>, incs: map<string, Json>)

  datatype ProjectionDef = ProjectionDef(
    name: string, table: string, columns: map<string, string>, on: map<string, OpRule>)
  {
    function TableOf(): string { if table != "" then table else "read_" + name }
  }

  datatype PolicyDef = PolicyDef(
    name: string, role: string, action: string, using: string, allow: seq<string>, deny: seq<string>)

  /** What the projector sees of an event. */
  datatype EventLike = EventLike(eventType: string, streamId: string, tenant: string, payload: Payload)

  // ── shapes ───────────────────────────────────────────────────────────────────

  predicate IsLower(c: char) { 'a' <= c <= 'z' }

  predicate IsUpper(c: char) { 'A' <= c <= 'Z' }

  predicate IsNumeral(c: char) { '0' <= c <= '9' }

  predicate IsIdentifierChar(c: char) { IsLower(c) || IsNumeral(c) || c == '_' }

  /** `^[a-z][a-z0-9_]*$` */
  predicate IsIdentifier(s: string) {
    s != "" && IsLower(s[0]) && forall i :: 0 <= i < |s| ==> IsIdentifierChar(s[i])
  }

  /** `^[A-Z][A-Za-z0-9]+$` */
  predicate IsEventType(s: string) {
    |s| > 1 && IsUpper(s[0]) && forall i :: 0 <= i < |s| ==> IsUpper(s[i]) || IsLower(s[i]) || IsNumeral(s[i])
  }

  predicate IsColType(t: string) { t == "text" || t == "integer" || t == "real" || t == "boolean" }

  predicate IsIncValue(v: Json) { v.Num? || (v.Str? && Paths.IsPayloadPath(v.s)) }

  // ── validation ───────────────────────────────────────────────────────────────

  predicate IsRule(evt: string, rule: OpRule) {
    && IsEventType(evt)
    && (rule.op == "upsert" || rule.op == "delete")
    && (rule.key == "" || Paths.IsPayloadPath(rule.key))
    && (forall c :: c in rule.sets ==> IsIdentifier(c))
    && (forall c :: c in rule.incs ==> IsIdentifier(c) && IsIncValue(rule.incs[c]))
  }

  predicate Keyed(d: ProjectionDef) { forall evt :: evt in d.on ==> d.on[evt].key != "" }

  predicate Unkeyed(d: ProjectionDef) { forall evt :: evt in d.on ==> d.on[evt].key == "" }

  /** The definition schema: every name an identifier, every rule well formed, and one
      identity scheme for the whole projection. */
  predicate ValidProjection(d: ProjectionDef) {
    && IsIdentifier(d.name)
    && (d.table == "" || IsIdentifier(d.table))
    && (forall c :: c in d.columns ==> IsIdentifier(c) && IsColType(d.columns[c]))
    && (forall evt :: evt in d.on ==> IsRule(evt, d.on[evt]))
    && (Keyed(d) || Unkeyed(d))
  }

  method ValidateColumns(columns: map<string, string>) returns (ok: bool)
    ensures ok <==> forall c :: c in columns ==> IsIdentifier(c) && IsColType(columns[c])
  {
    var left := columns.Keys;
    while left != {}
      invariant left <= columns.Keys
      invariant forall c :: c in columns && c !in left ==> IsIdentifier(c) && IsColType(columns[c])
    {
      var c :| c in left;
      if !IsIdentifier(c) || !IsColType(columns[c]) {
        return false;
      }
      left := left - {c};
    }
    return true;
  }

  method ValidateRule(evt: string, rule: OpRule) returns (ok: bool)
    ensures ok <==> IsRule(evt, rule)
  {
    if !IsEventType(evt) || (rule.op != "upsert" && rule.op != "delete") {
      return false;
    }
    if rule.key != "" && !Paths.IsPayloadPath(rule.key) {
      return false;
    }
    var left := rule.sets.Keys;
    while left != {}
      invariant left <= rule.sets.Keys
      invariant forall c :: c in rule.sets && c !in left ==> IsIdentifier(c)
    {
      var c :| c in left;
      if !IsIdentifier(c) {
        return false;
      }
      left := left - {c};
    }
    left := rule.incs.Keys;
    while left != {}
      invariant left <= rule.incs.Keys
      invariant forall c :: c in rule.incs && c !in left ==> IsIdentifier(c) && IsIncValue(rule.incs[c])
    {
      var c :| c in left;
      if !IsIdentifier(c) || !IsIncValue(rule.incs[c]) {
        return false;
      }
      left := left - {c};
    }
    return true;
  }

  method ValidateRules(d: ProjectionDef) returns (ok: bool)
    ensures ok <==> (forall evt :: evt in d.on ==> IsRule(evt, d.on[evt])) && (Keyed(d) || Unkeyed(d))
  {
    var keyed: nat, unkeyed: nat := 0, 0;
    var left := d.on.Keys;
    while left != {}
      invariant left <= d.on.Keys
      invariant forall evt :: evt in d.on && evt !in left ==> IsRule(evt, d.on[evt])
      invariant keyed > 0 <==> exists evt :: evt in d.on && evt !in left && d.on[evt].key != ""
      invariant unkeyed > 0 <==> exists evt :: evt in d.on && evt !in left && d.on[evt].key == ""
    {
      var evt :| evt in left;
      var ruleOk := ValidateRule(evt, d.on[evt]);
      if !ruleOk {
        return false;
      }
      if d.on[evt].key == "" {
        unkeyed := unkeyed + 1;
      } else {
        keyed := keyed + 1;
      }
      left := left - {evt};
    }
    return !(keyed > 0 && unkeyed > 0);
  }

  /** The counting pass over the rules accepts exactly the valid definitions. */
  method ValidateProjection(d: ProjectionDef) returns (ok: bool)
    ensures ok <==> ValidProjection(d)
  {
    if !IsIdentifier(d.name) || (d.table != "" && !IsIdentifier(d.table)) {
      return false;
    }
    var columnsOk := ValidateColumns(d.columns);
    if !columnsOk {
      return false;
    }
    ok := ValidateRules(d);
  }
}
