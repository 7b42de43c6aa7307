/**
  The `when` controller of an app's type question (the closure made by
  getAppTypeQuestionController). It decides whether the prompt asks for
  `listen.<app>.type`; when the app is the "-doc" companion of an earlier app
  whose type is already known, it skips the question and copies that type into
  the answers being collected.
*/
module AppTypeController {
  import opened Optional

  /** A property of a JavaScript object as lodash sees it: missing, present with
      the value undefined, or present with a string. */
  datatype Slot = Absent | Undefined | Present(text: string)

  /** The object at `listen[app]`: its `type` and its `port`. */
  datatype ListenEntry = ListenEntry(appType: Slot, port: Option<int>)

  /** The `listen` branch of an answers or defaults object, keyed by app name. */
  type ListenMap = map<string, ListenEntry>

  /** The defaults object handed to serviceConfig; only its `listen` branch is read. */
  datatype Defaults = Defaults(listen: ListenMap)

  /** What one controller closure captures: the app list, its own app and index,
      and the defaults. */
  datatype TypeCheck = TypeCheck(apps: seq<string>, app: string, appIndex: nat, defaults: Defaults)

  /** `_.has(obj, ['listen', app, 'type'])`: true when the property exists, even
      when it holds undefined, so it can hold where `_.get` falls back. */
  function HasType(listen: ListenMap, app: string): (has: bool)
    ensures has ==> app in listen && !listen[app].appType.Absent?
    ensures has <== app in listen && (listen[app].appType.Undefined? || listen[app].appType.Present?)
    ensures !has ==> forall fallback :: GetType(listen, app, fallback) == fallback
  {
    app in listen && !listen[app].appType.Absent?
  }

  /** `_.get(obj, ['listen', app, 'type'], fallback)`: the fallback is used when
      the value is missing or undefined. */
  function GetType(listen: ListenMap, app: string, fallback: string): (t: string)
    ensures t == fallback || (app in listen && listen[app].appType == Present(t))
    ensures app in listen && listen[app].appType.Present? ==> t == listen[app].appType.text
  {
    if app in listen && listen[app].appType.Present? then listen[app].appType.text else fallback
  }

  /** `_.set(obj, ['listen', app, 'type'], t)`: creates `listen[app]` when it is
      missing, keeps its port when it exists, and touches no other app. */
  function SetType(listen: ListenMap, app: string, t: string): (r: ListenMap)
    ensures r.Keys == listen.Keys + {app}
    ensures r[app].appType == Present(t)
    ensures r[app].port == (if app in listen then listen[app].port else None)
    ensures forall k :: k in listen && k != app ==> r[k] == listen[k]
  {
    listen[app := ListenEntry(Present(t), if app in listen then listen[app].port else None)]
  }

  /** Earlier app `i` is the base of a "-doc" app whose type is known, either in
      the answers given so far or in the defaults. */
  predicate IsKnownBase(c: TypeCheck, answers: ListenMap, i: nat)
    requires i < |c.apps|
  {
    && c.app == c.apps[i] + "-doc"
    && (HasType(answers, c.apps[i]) || HasType(c.defaults.listen, c.apps[i]))
  }

  /** The first index at or after `from`, and before the controller's own index,
      that is a known base of the app. */
  function DocBaseFrom(c: TypeCheck, answers: ListenMap, from: nat): (r: Option<nat>)
    requires from <= c.appIndex <= |c.apps|
    ensures r.Some? ==> from <= r.value < c.appIndex && IsKnownBase(c, answers, r.value)
    ensures r.Some? ==> forall j :: from <= j < r.value ==> !IsKnownBase(c, answers, j)
    ensures r.None? ==> forall j :: from <= j < c.appIndex ==> !IsKnownBase(c, answers, j)
    decreases c.appIndex - from
  {
    if from == c.appIndex then None
    else if IsKnownBase(c, answers, from) then Some(from)
    else DocBaseFrom(c, answers, from + 1)
  }

  /** The earlier app, if any, whose type the app inherits. */
  function DocBase(c: TypeCheck, answers: ListenMap): Option<nat>
    requires c.appIndex <= |c.apps|
  {
    DocBaseFrom(c, answers, 0)
  }

  /** The type copied from base `i`: the answer if one was given, else the
      default, else the empty string. */
  function InheritedType(c: TypeCheck, answers: ListenMap, i: nat): (t: string)
    requires i < |c.apps|
    ensures var base := c.apps[i];
            base in answers && answers[base].appType.Present? ==> t == answers[base].appType.text
    ensures var base := c.apps[i];
            ((base !in answers || !answers[base].appType.Present?)
             && base in c.defaults.listen && c.defaults.listen[base].appType.Present?) ==>
              t == c.defaults.listen[base].appType.text
    ensures var base := c.apps[i];
            ((base !in answers || !answers[base].appType.Present?)
             && (base !in c.defaults.listen || !c.defaults.listen[base].appType.Present?)) ==> t == ""
  {
    GetType(answers, c.apps[i], GetType(c.defaults.listen, c.apps[i], ""))
  }

  /** What the controller returns: ask unless the defaults list the app or an
      earlier app is a known base. */
  function AskType(c: TypeCheck, answers: ListenMap): bool
    requires c.appIndex <= |c.apps|
  {
    c.app !in c.defaults.listen && DocBase(c, answers).None?
  }

  /** The `listen` answers after the controller has run. */
  function AnswersAfter(c: TypeCheck, answers: ListenMap): ListenMap
    requires c.appIndex <= |c.apps|
  {
    if c.app in c.defaults.listen then answers
    else match DocBase(c, answers)
      case None => answers
      case Some(i) => SetType(answers, c.app, InheritedType(c, answers, i))
  }

  /** The answers object the prompt fills in while it asks the service-config
      questions; the controller reads and updates its `listen` branch. */
  class Answers {
    var listen: ListenMap

    constructor (listen: ListenMap)
      ensures this.listen == listen
    {
      this.listen := listen;
    }

    /** The `when` callback of the type question for `c.app`. */
    method TypeQuestionWhen(c: TypeCheck) returns (ask: bool)
      requires c.appIndex <= |c.apps|
      modifies this
      ensures ask == AskType(c, old(listen))
      ensures listen == AnswersAfter(c, old(listen))
    {
      if c.app in c.defaults.listen {
        return false;
      }
      var i := 0;
      while i < c.appIndex
        invariant 0 <= i <= c.appIndex
        invariant listen == old(listen)
        invariant DocBaseFrom(c, listen, i) == DocBase(c, listen)
      {
        var base := c.apps[i];
        if c.app == base + "-doc" && (HasType(listen, base) || HasType(c.defaults.listen, base)) {
          var value := GetType(listen, base, GetType(c.defaults.listen, base, ""));
          listen := SetType(listen, c.app, value);
          return false;
        }
        i := i + 1;
      }
      return true;
    }
  }

  // ---------------------------------------------------------------------------
  // properties of the controller

  /** The question is asked exactly when the defaults do not list the app and no
      earlier app is its base with a known type; when it is asked, the answers
      are left as they were. */
  lemma AskedIffUnknown(c: TypeCheck, answers: ListenMap)
    requires c.appIndex <= |c.apps|
    ensures AskType(c, answers) <==>
              && c.app !in c.defaults.listen
              && forall i :: 0 <= i < c.appIndex && c.app == c.apps[i] + "-doc" ==>
                   !HasType(answers, c.apps[i]) && !HasType(c.defaults.listen, c.apps[i])
    ensures AskType(c, answers) ==> AnswersAfter(c, answers) == answers
  {
    if c.app !in c.defaults.listen && DocBase(c, answers).Some? {
      var i := DocBase(c, answers).value;
      assert IsKnownBase(c, answers, i);
    } else if DocBase(c, answers).None? {
      forall i | 0 <= i < c.appIndex
        ensures c.app == c.apps[i] + "-doc" ==>
                  !HasType(answers, c.apps[i]) && !HasType(c.defaults.listen, c.apps[i])
      {
        assert !IsKnownBase(c, answers, i);
      }
    }
  }

  /** When the defaults list the app, the question is skipped and nothing is
      written. */
  lemma DefaultedAppNotAsked(c: TypeCheck, answers: ListenMap)
    requires c.appIndex <= |c.apps|
    requires c.app in c.defaults.listen
    ensures !AskType(c, answers) && AnswersAfter(c, answers) == answers
  {
  }

  /** The "-doc" rule: when the question is skipped for a "-doc" app whose base
      precedes it, the app's type becomes the base's type (the answered one if
      any, otherwise the default), its port is kept, and no other app changes. */
  lemma DocCompanionInheritsType(c: TypeCheck, answers: ListenMap)
    requires c.appIndex <= |c.apps|
    requires c.app !in c.defaults.listen
    requires !AskType(c, answers)
    ensures var after := AnswersAfter(c, answers);
            exists i :: 0 <= i < c.appIndex && c.app == c.apps[i] + "-doc"
              && (HasType(answers, c.apps[i]) || HasType(c.defaults.listen, c.apps[i]))
              && c.app in after && after[c.app].appType == Present(InheritedType(c, answers, i))
              && (answers.Keys <= after.Keys)
              && (c.app in answers ==> after[c.app].port == answers[c.app].port)
              && (forall k :: k in answers && k != c.app ==> after[k] == answers[k])
              && (after.Keys == answers.Keys + {c.app})
  {
    var i := DocBase(c, answers).value;
    assert IsKnownBase(c, answers, i);
  }

  /** Only apps before the controller's own index are consulted: replacing the
      rest of the app list changes neither the decision nor the answers. */
  lemma {:induction false} OnlyEarlierAppsMatter(c: TypeCheck, answers: ListenMap, later: seq<string>)
    requires c.appIndex <= |c.apps|
    ensures var c' := c.(apps := c.apps[..c.appIndex] + later);
            AskType(c', answers) == AskType(c, answers)
            && AnswersAfter(c', answers) == AnswersAfter(c, answers)
  {
    var c' := c.(apps := c.apps[..c.appIndex] + later);
    DocBaseFromEarlier(c, c', answers, 0);
  }

  lemma {:induction false} DocBaseFromEarlier(c: TypeCheck, c': TypeCheck, answers: ListenMap, from: nat)
    requires from <= c.appIndex <= |c.apps|
    requires c'.app == c.app && c'.appIndex == c.appIndex && c'.defaults == c.defaults
    requires c.appIndex <= |c'.apps| && c'.apps[..c.appIndex] == c.apps[..c.appIndex]
    ensures DocBaseFrom(c', answers, from) == DocBaseFrom(c, answers, from)
    ensures DocBaseFrom(c, answers, from).Some? ==>
              InheritedType(c', answers, DocBaseFrom(c, answers, from).value)
              == InheritedType(c, answers, DocBaseFrom(c, answers, from).value)
    decreases c.appIndex - from
  {
    if from < c.appIndex {
      assert c'.apps[from] == c'.apps[..c.appIndex][from];
      DocBaseFromEarlier(c, c', answers, from + 1);
    }
  }
}
