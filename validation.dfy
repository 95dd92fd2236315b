/**
 * Turning validator.ValidationErrors into one message: a per-field message
 * chosen by the failed tag, collected into a map keyed by the lower-cased
 * field name (a later error for the same field replaces an earlier one), and
 * the map's entries rendered as "field: message" joined by "; ".
 *
 * Both revisions of package apperr share this logic: error.go runs the same
 * loop inline in BadRequest, bad_request.go factors it into
 * mapValidationErrors; formatValidationErrors is identical in both.
 */
module FieldValidation {
  import opened GoStrings
  import opened CodedErrors

  /** The tags that have a dedicated message. */
  predicate KnownTag(tag: string) {
    tag == "required" || tag == "email" || tag == "min" || tag == "max"
  }

  predicate EndsWith(s: string, suffix: string) {
    |suffix| <= |s| && s[|s| - |suffix|..] == suffix
  }

  /**
   * The message for one failed field: it starts with the lower-cased field
   * name, and ends with " (param: p)" exactly for a tag without its own
   * message and a non-empty parameter p.
   */
  function FieldMessage(fe: FieldErr): (msg: string)
    ensures |msg| > |ToLower(fe.field)| && msg[..|ToLower(fe.field)|] == ToLower(fe.field)
    ensures msg[|msg| - 1] == ')' <==> !KnownTag(fe.tag) && fe.param != ""
    ensures !KnownTag(fe.tag) && fe.param != "" ==> EndsWith(msg, " (param: " + fe.param + ")")
  {
    var field := ToLower(fe.field);
    if fe.tag == "required" then field + " is required"
    else if fe.tag == "email" then field + " must be a valid email"
    else if fe.tag == "min" then field + " must be at least " + fe.param + " characters"
    else if fe.tag == "max" then field + " cannot be longer than " + fe.param + " characters"
    else
      var msg := field + " failed on '" + fe.tag + "'";
      if fe.param != "" then msg + " (param: " + fe.param + ")" else msg
  }

  /** The map the validation loop builds: errors are applied in order, so the last one per field wins. */
  function FieldMap(errs: seq<FieldErr>): map<string, string>
    decreases |errs|
  {
    if errs == [] then map[]
    else
      var last := errs[|errs| - 1];
      FieldMap(errs[..|errs| - 1])[ToLower(last.field) := FieldMessage(last)]
  }

  /** The lower-cased names of the failed fields. */
  function LoweredFields(errs: seq<FieldErr>): set<string> {
    set i | 0 <= i < |errs| :: ToLower(errs[i].field)
  }

  /** The map has one key per distinct lower-cased field name, and no other. */
  lemma {:induction false} FieldMapKeys(errs: seq<FieldErr>)
    ensures FieldMap(errs).Keys == LoweredFields(errs)
    decreases |errs|
  {
    if errs != [] {
      var init := errs[..|errs| - 1];
      FieldMapKeys(init);
      assert LoweredFields(errs) == LoweredFields(init) + {ToLower(errs[|errs| - 1].field)} by {
        forall k | k in LoweredFields(errs) ensures k in LoweredFields(init) + {ToLower(errs[|errs| - 1].field)} {
          var i :| 0 <= i < |errs| && k == ToLower(errs[i].field);
          if i < |errs| - 1 {
            assert init[i] == errs[i];
          }
        }
        forall k | k in LoweredFields(init) ensures k in LoweredFields(errs) {
          var i :| 0 <= i < |init| && k == ToLower(init[i].field);
          assert errs[i] == init[i];
        }
      }
    }
  }

  /** The map never has more entries than there are errors. */
  lemma {:induction false} FieldMapSize(errs: seq<FieldErr>)
    ensures |FieldMap(errs)| <= |errs|
    decreases |errs|
  {
    if errs != [] {
      var init := errs[..|errs| - 1];
      FieldMapSize(init);
      var k := ToLower(errs[|errs| - 1].field);
      assert FieldMap(errs).Keys == FieldMap(init).Keys + {k};
    }
  }

  /** The map is empty exactly when there is no error. */
  lemma FieldMapEmptyIff(errs: seq<FieldErr>)
    ensures FieldMap(errs) == map[] <==> errs == []
  {
    if errs != [] {
      var k := ToLower(errs[|errs| - 1].field);
      assert k in FieldMap(errs);
    }
  }

  /** An error that no later error overrides supplies its field's message. */
  lemma {:induction false} FieldMapLastWins(errs: seq<FieldErr>, i: nat)
    requires i < |errs|
    requires forall j :: i < j < |errs| ==> ToLower(errs[j].field) != ToLower(errs[i].field)
    ensures ToLower(errs[i].field) in FieldMap(errs)
    ensures FieldMap(errs)[ToLower(errs[i].field)] == FieldMessage(errs[i])
    decreases |errs|
  {
    if i < |errs| - 1 {
      var init := errs[..|errs| - 1];
      assert init[i] == errs[i];
      forall j | i < j < |init| ensures ToLower(init[j].field) != ToLower(init[i].field) {
        assert init[j] == errs[j];
      }
      FieldMapLastWins(init, i);
    }
  }

  /** mapValidationErrors: fills the map field by field. */
  method MapValidationErrors(errs: seq<FieldErr>) returns (m: map<string, string>)
    ensures m == FieldMap(errs)
  {
    m := map[];
    for i := 0 to |errs|
      invariant m == FieldMap(errs[..i])
    {
      var fe := errs[i];
      var field := ToLower(fe.field);
      var msg := FieldMessage(fe);
      assert errs[..i + 1][..i] == errs[..i];
      m := m[field := msg];
    }
    assert errs[..|errs|] == errs;
  }

  /** "field: message" for one entry of the map. */
  function Part(m: map<string, string>, field: string): string
    requires field in m
  {
    field + ": " + m[field]
  }

  /** `order` lists every key of `m` exactly once. */
  ghost predicate Enumerates(m: map<string, string>, order: seq<string>) {
    && |order| == |m|
    && (forall i, j :: 0 <= i < j < |order| ==> order[i] != order[j])
    && (forall k :: k in m <==> k in order)
  }

  function Parts(m: map<string, string>, order: seq<string>): (ps: seq<string>)
    requires forall i :: 0 <= i < |order| ==> order[i] in m
    ensures |ps| == |order|
  {
    seq(|order|, i requires 0 <= i < |order| && order[i] in m => Part(m, order[i]))
  }

  /** `s` is the map's entries, one "field: message" part each, in some order, joined by "; ". */
  ghost predicate IsRendering(s: string, m: map<string, string>) {
    exists order :: Enumerates(m, order) && s == Join(Parts(m, order), "; ")
  }

  /**
   * formatValidationErrors: Go visits map entries in an unspecified order, so
   * the key visited next is any key not yet visited.
   */
  method FormatValidationErrors(m: map<string, string>) returns (s: string)
    ensures IsRendering(s, m)
    ensures s == "" <==> |m| == 0
  {
    var parts: seq<string> := [];
    var rest := m.Keys;
    ghost var order: seq<string> := [];
    while rest != {}
      invariant rest <= m.Keys
      invariant |order| + |rest| == |m|
      invariant forall i, j :: 0 <= i < j < |order| ==> order[i] != order[j]
      invariant forall k :: k in order ==> k in m && k !in rest
      invariant forall k :: k in m ==> k in order || k in rest
      invariant parts == Parts(m, order)
      decreases |rest|
    {
      var field :| field in rest;
      parts := parts + [field + ": " + m[field]];
      order := order + [field];
      rest := rest - {field};
    }
    s := Join(parts, "; ");
    assert Enumerates(m, order);
    JoinEmptyIff(parts, "; ");
  }

  /** An empty map renders only as "". */
  lemma RenderingOfEmpty(s: string)
    ensures IsRendering(s, map[]) <==> s == ""
  {
    if s == "" {
      assert Enumerates(map[], []) && s == Join(Parts(map[], []), "; ");
    }
  }

  /** A one-entry map has a single rendering. */
  lemma RenderingOfOne(s: string, field: string, msg: string)
    requires IsRendering(s, map[field := msg])
    ensures s == field + ": " + msg
  {
    var m := map[field := msg];
    var order :| Enumerates(m, order) && s == Join(Parts(m, order), "; ");
    assert order[0] in m;
  }

  /** The message of the validation branch once NewError has replaced an empty text. */
  ghost predicate ValidationMessage(msg: string, errs: seq<FieldErr>) {
    if errs == [] then msg == DefaultMessage else IsRendering(msg, FieldMap(errs))
  }
}
