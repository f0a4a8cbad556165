/** The request hygiene helpers of backend/src/utils/security.ts: XSS sanitising of strings and of whole
    request values, masking of secrets for logs, the file-type check, the injection-pattern test and the
    rate-limit key. Request values are `Json.Value`s. */
module Security {
  import opened Wrappers
  import opened Text
  import opened Json

  /** The characters `sanitizeInput` strips. */
  const AngleBrackets: set<char> := {'<', '>'}

  /** `sanitizeInput` on a string: every `<` and `>` is removed, then the result is trimmed. */
  function SanitizeString(s: string): (r: string)
    ensures '<' !in r && '>' !in r
    ensures IsTrimmed(r)
    ensures |r| <= |s|
    ensures forall c :: c in r ==> c in s
  {
    var stripped := Remove(s, AngleBrackets);
    TrimKeepsChars(stripped);
    Trim(stripped)
  }

  /** Text without angle brackets or surrounding white space is left as it is. */
  lemma SanitizeStringKeepsClean(s: string)
    requires '<' !in s && '>' !in s && IsTrimmed(s)
    ensures SanitizeString(s) == s
  {
    assert forall i :: 0 <= i < |s| ==> s[i] !in AngleBrackets by {
      forall i | 0 <= i < |s| ensures s[i] !in AngleBrackets {
        assert s[i] in s;
      }
    }
    TrimTrimmed(s);
  }

  /** Sanitising twice is sanitising once. */
  lemma SanitizeStringIdempotent(s: string)
    ensures SanitizeString(SanitizeString(s)) == SanitizeString(s)
  {
    SanitizeStringKeepsClean(SanitizeString(s));
  }

  /** Text that has neither angle brackets nor white space comes through untouched, whatever it is. */
  lemma PlainTextUntouched(s: string)
    requires forall c :: c in s ==> c != '<' && c != '>' && !IsSpace(c)
    ensures SanitizeString(s) == s
  {
    assert forall i :: 0 <= i < |s| ==> s[i] !in AngleBrackets by {
      forall i | 0 <= i < |s| ensures s[i] !in AngleBrackets {
        assert s[i] in s;
      }
    }
    TrimWithoutSpace(s);
  }

  /** `sanitizeInput`: a string is sanitised, any other value passes through. */
  function SanitizeInput(v: Value): (r: Value)
    ensures v.Str? ==> r == Str(SanitizeString(v.s))
    ensures !v.Str? ==> r == v
  {
    if v.Str? then Str(SanitizeString(v.s)) else v
  }

  /** `sanitizeObject`: strings are sanitised, other primitives and `null` kept, arrays sanitised element by
      element and objects own key by own key. A `Date` is an object without own keys, so it becomes `{}`. */
  function SanitizeObject(v: Value): (r: Value)
    ensures v.Arr? ==> r.Arr? && |r.items| == |v.items|
    ensures v.Obj? || v.Date? ==> r.Obj?
    ensures v.Obj? ==> r.fields.Keys == v.fields.Keys
    decreases v
  {
    match v
    case Str(s) => SanitizeInput(v)
    case Date(_) => Obj(map[])
    case Arr(items) => Arr(seq(|items|, i requires 0 <= i < |items| => SanitizeObject(items[i])))
    case Obj(fields) => Obj(map k | k in fields :: SanitizeObject(fields[k]))
    case _ => v
  }

  /** A value sanitising leaves alone: no string anywhere in it holds an angle bracket or surrounding white
      space, and it holds no `Date`. */
  predicate Clean(v: Value)
    decreases v
  {
    match v
    case Str(s) => '<' !in s && '>' !in s && IsTrimmed(s)
    case Date(_) => false
    case Arr(items) => forall i :: 0 <= i < |items| ==> Clean(items[i])
    case Obj(fields) => forall k :: k in fields ==> Clean(fields[k])
    case _ => true
  }

  /** Whatever comes in, what `sanitizeObject` gives back is clean, at every depth. */
  lemma {:induction false} SanitizeObjectIsClean(v: Value)
    ensures Clean(SanitizeObject(v))
    decreases v
  {
    match v
    case Arr(items) =>
      forall i | 0 <= i < |items| ensures Clean(SanitizeObject(v).items[i]) {
        SanitizeObjectIsClean(items[i]);
      }
    case Obj(fields) =>
      forall k | k in fields ensures Clean(SanitizeObject(v).fields[k]) {
        SanitizeObjectIsClean(fields[k]);
      }
    case _ =>
  }

  /** A clean value is its own sanitised form. */
  lemma {:induction false} SanitizeObjectKeepsClean(v: Value)
    requires Clean(v)
    ensures SanitizeObject(v) == v
    decreases v
  {
    match v
    case Str(s) =>
      SanitizeStringKeepsClean(s);
    case Arr(items) =>
      forall i | 0 <= i < |items| ensures SanitizeObject(v).items[i] == items[i] {
        SanitizeObjectKeepsClean(items[i]);
      }
    case Obj(fields) =>
      forall k | k in fields ensures SanitizeObject(v).fields[k] == fields[k] {
        SanitizeObjectKeepsClean(fields[k]);
      }
    case _ =>
  }

  /** Sanitising a request twice is sanitising it once. */
  lemma SanitizeObjectIdempotent(v: Value)
    ensures SanitizeObject(SanitizeObject(v)) == SanitizeObject(v)
  {
    SanitizeObjectIsClean(v);
    SanitizeObjectKeepsClean(SanitizeObject(v));
  }

  /** The text a masked field is replaced with. */
  const MaskedText: string := "***MASKED***"

  /** The default `fieldsToMask`. */
  const DefaultMaskedFields: seq<string> := ["password", "token", "secret"]

  /** A key is masked when its lower-case form is one of `fields`. */
  predicate Sensitive(key: string, fields: seq<string>) {
    Lower(key) in fields
  }

  /** `maskSensitiveData(data, fields)`: primitives and `null` are returned as they are, arrays masked element
      by element; in an object a sensitive key's value becomes the mask text, a value of object type is masked
      recursively, any other value is copied. A `Date` is an object without own keys and becomes `{}`. */
  function MaskSensitiveData(v: Value, fields: seq<string>): (r: Value)
    ensures v.Arr? ==> r.Arr? && |r.items| == |v.items|
    ensures v.Obj? || v.Date? ==> r.Obj?
    ensures v.Obj? ==> r.fields.Keys == v.fields.Keys
    ensures !IsObjectType(v) ==> r == v
    decreases v
  {
    match v
    case Date(_) => Obj(map[])
    case Arr(items) => Arr(seq(|items|, i requires 0 <= i < |items| => MaskSensitiveData(items[i], fields)))
    case Obj(o) =>
      Obj(map k | k in o ::
            if Sensitive(k, fields) then Str(MaskedText)
            else if IsObjectType(o[k]) then MaskSensitiveData(o[k], fields)
            else o[k])
    case _ => v
  }

  /** No sensitive key anywhere in `v` holds anything but the mask text, and `v` holds no `Date`. */
  predicate Masked(v: Value, fields: seq<string>)
    decreases v
  {
    match v
    case Date(_) => false
    case Arr(items) => forall i :: 0 <= i < |items| ==> Masked(items[i], fields)
    case Obj(o) => forall k :: k in o ==> (if Sensitive(k, fields) then o[k] == Str(MaskedText) else Masked(o[k], fields))
    case _ => true
  }

  /** What `maskSensitiveData` gives back reveals no sensitive field, at any depth. */
  lemma {:induction false} MaskHidesSecrets(v: Value, fields: seq<string>)
    ensures Masked(MaskSensitiveData(v, fields), fields)
    decreases v
  {
    match v
    case Arr(items) =>
      forall i | 0 <= i < |items| ensures Masked(MaskSensitiveData(v, fields).items[i], fields) {
        MaskHidesSecrets(items[i], fields);
      }
    case Obj(o) =>
      forall k | k in o && !Sensitive(k, fields) ensures Masked(MaskSensitiveData(v, fields).fields[k], fields) {
        MaskHidesSecrets(o[k], fields);
      }
    case _ =>
  }

  /** A value already masked is left as it is: masking is idempotent. */
  lemma {:induction false} MaskKeepsMasked(v: Value, fields: seq<string>)
    requires Masked(v, fields)
    ensures MaskSensitiveData(v, fields) == v
    decreases v
  {
    match v
    case Arr(items) =>
      forall i | 0 <= i < |items| ensures MaskSensitiveData(v, fields).items[i] == items[i] {
        MaskKeepsMasked(items[i], fields);
      }
    case Obj(o) =>
      forall k | k in o && !Sensitive(k, fields) ensures MaskSensitiveData(v, fields).fields[k] == o[k] {
        MaskKeepsMasked(o[k], fields);
      }
    case _ =>
  }

  /** Masking twice is masking once. */
  lemma MaskIdempotent(v: Value, fields: seq<string>)
    ensures MaskSensitiveData(MaskSensitiveData(v, fields), fields) == MaskSensitiveData(v, fields)
  {
    MaskHidesSecrets(v, fields);
    MaskKeepsMasked(MaskSensitiveData(v, fields), fields);
  }

  /** With the default fields, `password`, `Token` and `SECRET` keys are all masked in an object. */
  lemma DefaultFieldsIgnoreCase(o: map<string, Value>, k: string)
    requires k in o && Lower(k) in DefaultMaskedFields
    ensures MaskSensitiveData(Obj(o), DefaultMaskedFields).fields[k] == Str(MaskedText)
  {
  }

  /** An object field that is not sensitive and is no object itself is copied unchanged. */
  lemma PlainFieldCopied(o: map<string, Value>, k: string, fields: seq<string>)
    requires k in o && !Sensitive(k, fields) && !IsObjectType(o[k])
    ensures MaskSensitiveData(Obj(o), fields).fields[k] == o[k]
  {
  }

  /** The extension `isValidFileType` looks at: the text after the last dot, lower-cased (the whole name
      when there is no dot). */
  function Extension(filename: string): (r: string)
    ensures '.' !in r
    ensures |r| <= |filename|
  {
    var ext := AfterLast(filename, '.');
    assert '.' !in ext;
    assert forall i :: 0 <= i < |ext| ==> Lower(ext)[i] != '.' by {
      forall i | 0 <= i < |ext| ensures Lower(ext)[i] != '.' {
        assert ext[i] in ext;
      }
    }
    assert |ext| <= |filename| by {
      if '.' in filename {
        var i :| 0 <= i < |filename| && filename[i] == '.' && ext == filename[i + 1..];
      }
    }
    Lower(ext)
  }

  /** `isValidFileType(filename, allowedTypes)`: the extension is non-empty and allowed. */
  predicate IsValidFileType(filename: string, allowedTypes: seq<string>) {
    var ext := Extension(filename);
    ext != "" && ext in allowedTypes
  }

  /** The last dot of `stem + "." + ext` is the one before `ext` when `ext` has no dot. */
  lemma {:induction false} AfterLastDot(stem: string, ext: string)
    requires '.' !in ext
    ensures AfterLast(stem + "." + ext, '.') == ext
  {
    LastIndexOfAppend(stem + ".", ext, '.');
    var n := stem + ".";
    assert LastIndexOf(n, '.') == Some(|stem|) by {
      assert n[|n| - 1] == '.';
    }
    assert (stem + "." + ext)[|stem| + 1..] == ext;
  }

  /** A file name is accepted exactly when the text after its last dot, lower-cased, is a non-empty allowed
      type: the stem is irrelevant, and the check ignores case. */
  lemma FileTypeByLastExtension(stem: string, ext: string, allowedTypes: seq<string>)
    requires '.' !in ext
    ensures IsValidFileType(stem + "." + ext, allowedTypes) <==> ext != "" && Lower(ext) in allowedTypes
  {
    AfterLastDot(stem, ext);
  }

  /** A name without any dot is its own extension: `csv` alone is a valid CSV file name. */
  lemma FileTypeWithoutDot(filename: string, allowedTypes: seq<string>)
    requires '.' !in filename
    ensures IsValidFileType(filename, allowedTypes) <==> filename != "" && Lower(filename) in allowedTypes
  {
  }

  /** The alternatives of the two injection patterns: the NoSQL operators and the SQL tokens, all lower case
      (the patterns match ignoring case). */
  const InjectionTokens: seq<string> := [
    "$where", "$ne", "$gt", "$lt", "$or", "$and",
    ";", "--", "/*", "*/", "xp_", "sp_", "exec", "execute", "select", "insert", "update", "delete", "drop",
    "create", "alter"
  ]

  /** Some token of `tokens[from..]` occurs in `s`. */
  function AnyOccurs(s: string, tokens: seq<string>, from: nat): (b: bool)
    requires from <= |tokens|
    ensures b <==> exists i :: from <= i < |tokens| && Contains(s, tokens[i])
    decreases |tokens| - from
  {
    if from == |tokens| then false
    else Contains(s, tokens[from]) || AnyOccurs(s, tokens, from + 1)
  }

  /** `containsInjectionPatterns(input)`: one of the tokens occurs in the input, ignoring ASCII case. */
  function ContainsInjectionPatterns(input: string): (b: bool)
    ensures b <==> exists i :: 0 <= i < |InjectionTokens| && Contains(Lower(input), InjectionTokens[i])
  {
    AnyOccurs(Lower(input), InjectionTokens, 0)
  }

  /** Lower-casing the lower-case form changes nothing more. */
  lemma LowerIdempotent(s: string)
    ensures Lower(Lower(s)) == Lower(s)
  {
    forall i | 0 <= i < |s| ensures Lower(Lower(s))[i] == Lower(s)[i] {
    }
  }

  /** Lower-casing distributes over concatenation. */
  lemma LowerConcat(a: string, b: string)
    ensures Lower(a + b) == Lower(a) + Lower(b)
  {
    forall i | 0 <= i < |a + b| ensures Lower(a + b)[i] == (Lower(a) + Lower(b))[i] {
      if i < |a| {
        assert (a + b)[i] == a[i];
      } else {
        assert (a + b)[i] == b[i - |a|];
      }
    }
  }

  /** A token written in any mix of cases, anywhere in the input, is detected: the test is a plain
      case-insensitive substring search, so `"Last UPDATED"` is flagged as well. */
  lemma TokenAnywhereDetected(before: string, t: string, after: string, i: nat)
    requires i < |InjectionTokens| && Lower(t) == InjectionTokens[i]
    ensures ContainsInjectionPatterns(before + t + after)
  {
    LowerConcat(before + t, after);
    LowerConcat(before, t);
    var s := Lower(before + t + after);
    assert s == Lower(before) + InjectionTokens[i] + Lower(after);
    assert OccursAt(s, InjectionTokens[i], |before|) by {
      assert s[|before|..|before| + |InjectionTokens[i]|] == InjectionTokens[i];
    }
  }

  /** The test does not depend on case: an input and its lower-case form are flagged alike. */
  lemma InjectionIgnoresCase(input: string)
    ensures ContainsInjectionPatterns(Lower(input)) == ContainsInjectionPatterns(input)
  {
    LowerIdempotent(input);
  }

  /** `generateRateLimitKey(identifier, action)`. */
  function RateLimitKey(identifier: string, action: string): (k: string)
    ensures |k| == 11 + |action| + |identifier|
    ensures StartsWith(k, "ratelimit:")
  {
    "ratelimit:" + action + ":" + identifier
  }

  /** In a key, the action is followed by the first colon after the prefix. */
  lemma KeyLayout(identifier: string, action: string)
    requires ':' !in action
    ensures var k := RateLimitKey(identifier, action);
            && k[10 + |action|] == ':'
            && (forall j :: 10 <= j < 10 + |action| ==> k[j] != ':')
            && k[10..10 + |action|] == action
            && k[11 + |action|..] == identifier
  {
    var k := RateLimitKey(identifier, action);
    forall j | 10 <= j < 10 + |action| ensures k[j] != ':' {
      assert k[j] == action[j - 10];
      assert action[j - 10] in action;
    }
  }

  /** Keys of actions without a colon never collide: the key determines both the action and the identifier. */
  lemma RateLimitKeyInjective(id1: string, action1: string, id2: string, action2: string)
    requires ':' !in action1 && ':' !in action2
    requires RateLimitKey(id1, action1) == RateLimitKey(id2, action2)
    ensures action1 == action2 && id1 == id2
  {
    KeyLayout(id1, action1);
    KeyLayout(id2, action2);
    assert |action1| == |action2|;
  }
}
