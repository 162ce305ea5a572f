/**
 Filling a compiled storage: every `tz1@key@` is matched once on the template, and the matches
 are then replaced one after the other, each time at the first occurrence. When that is the
 simultaneous substitution, and when it is not.
 */
module StorageTemplate {
  import opened Wrappers

  predicate Occurs(pattern: string, s: string, i: nat) {
    i + |pattern| <= |s| && s[i..i + |pattern|] == pattern
  }

  // ---------- the JavaScript string operations ----------

  /** The position of the first `c` at or after `i`, or the length. */
  function IndexFrom(s: string, c: char, i: nat): (n: nat)
    requires i <= |s|
    ensures i <= n <= |s| && (forall k :: i <= k < n ==> s[k] != c) && (n < |s| ==> s[n] == c)
    decreases |s| - i
  {
    if i == |s| || s[i] == c then i else IndexFrom(s, c, i + 1)
  }

  const OPENING := "tz1@"

  /** The match of `/tz1@[^@]*@/` at the start of `s`, as its length. */
  function MatchHere(s: string): (n: Option<nat>)
    ensures n.Some? ==> 5 <= n.value <= |s| && s[..4] == OPENING && s[n.value - 1] == '@'
                        && '@' !in s[4..n.value - 1]
  {
    if !Occurs(OPENING, s, 0) then None
    else
      var end := IndexFrom(s, '@', 4);
      if end < |s| then Some(end + 1) else None
  }

  /** All matches, leftmost first, without overlap. */
  function Matches(s: string): seq<string>
    decreases |s|
  {
    if s == "" then []
    else
      match MatchHere(s)
      case Some(n) => [s[..n]] + Matches(s[n..])
      case None => Matches(s[1..])
  }

  /** The key between the two `@` of a match. */
  function KeyOf(matched: string): string {
    if |matched| < 5 then "" else matched[4..|matched| - 1]
  }

  function FirstIndex(s: string, pattern: string, i: nat): (n: nat)
    requires i <= |s|
    ensures i <= n <= |s|
    ensures forall k :: i <= k < n ==> !Occurs(pattern, s, k)
    decreases |s| - i
  {
    if i == |s| || Occurs(pattern, s, i) then i else FirstIndex(s, pattern, i + 1)
  }

  /** How `replace` reads a replacement text: `$$`, `$&`, and the text before and after the match are special. */
  function Expand(replacement: string, matched: string, before: string, after: string): string {
    if replacement == "" then ""
    else if |replacement| >= 2 && replacement[0] == '$' && replacement[1] == '$' then
      "$" + Expand(replacement[2..], matched, before, after)
    else if |replacement| >= 2 && replacement[0] == '$' && replacement[1] == '&' then
      matched + Expand(replacement[2..], matched, before, after)
    else if |replacement| >= 2 && replacement[0] == '$' && replacement[1] == '`' then
      before + Expand(replacement[2..], matched, before, after)
    else if |replacement| >= 2 && replacement[0] == '$' && replacement[1] == '\'' then
      after + Expand(replacement[2..], matched, before, after)
    else [replacement[0]] + Expand(replacement[1..], matched, before, after)
  }

  /** `s.replace(pattern, replacement)` with a string pattern: the first occurrence only. */
  function ReplaceFirst(s: string, pattern: string, replacement: string): string {
    var i := FirstIndex(s, pattern, 0);
    if !Occurs(pattern, s, i) then s
    else s[..i] + Expand(replacement, pattern, s[..i], s[i + |pattern|..]) + s[i + |pattern|..]
  }

  /** A key the caller did not bind reads as `undefined`. */
  function Lookup(keys: map<string, string>, key: string): string {
    if key in keys then keys[key] else "undefined"
  }

  function ReplaceAll(s: string, matches: seq<string>, keys: map<string, string>): string
    decreases |matches|
  {
    if matches == [] then s
    else ReplaceAll(ReplaceFirst(s, matches[0], Lookup(keys, KeyOf(matches[0]))), matches[1..], keys)
  }

  function BuildStorage(michelsonStorage: string, keys: map<string, string>): string {
    ReplaceAll(michelsonStorage, Matches(michelsonStorage), keys)
  }

  // ---------- templates and their simultaneous substitution ----------

  /** Text, then placeholders each followed by more text. */
  datatype Slot = Slot(key: string, gap: string)

  function Placeholder(key: string): string {
    OPENING + key + "@"
  }

  function Render(slots: seq<Slot>): string {
    if slots == [] then "" else Placeholder(slots[0].key) + slots[0].gap + Render(slots[1..])
  }

  function Substituted(slots: seq<Slot>, keys: map<string, string>): string {
    if slots == [] then "" else Lookup(keys, slots[0].key) + slots[0].gap + Substituted(slots[1..], keys)
  }

  function Placeholders(slots: seq<Slot>): seq<string> {
    if slots == [] then [] else [Placeholder(slots[0].key)] + Placeholders(slots[1..])
  }

  ghost predicate WellFormed(slots: seq<Slot>) {
    forall i :: 0 <= i < |slots| ==> '@' !in slots[i].key && '@' !in slots[i].gap
  }

  // ---------- what steers `replace` ----------

  predicate Special(c: char) {
    c == '$' || c == '&' || c == '`' || c == '\''
  }

  /** No dollar of the value is followed by a character that makes it special. */
  predicate Unsteered(value: string) {
    forall i :: 0 <= i < |value| - 1 && value[i] == '$' ==> !Special(value[i + 1])
  }

  /** The special characters behind a dollar, as `replace` meets them. */
  function Specials(value: string): seq<char> {
    if |value| < 2 then []
    else if value[0] == '$' && Special(value[1]) then [value[1]] + Specials(value[2..])
    else Specials(value[1..])
  }

  /** The value copies the text around the match. */
  predicate CopiesAround(value: string) {
    '`' in Specials(value) || '\'' in Specials(value)
  }

  lemma {:induction false} UnsteeredMeansNoSpecials(value: string)
    ensures Unsteered(value) <==> Specials(value) == []
  {
    if |value| >= 2 {
      var rest := value[1..];
      UnsteeredMeansNoSpecials(rest);
      forall i | 0 <= i < |rest| ensures rest[i] == value[i + 1] {}
      if Unsteered(rest) && !(value[0] == '$' && Special(value[1])) {
        forall i | 0 <= i < |value| - 1 && value[i] == '$' ensures !Special(value[i + 1]) {
          if i > 0 { assert rest[i - 1] == value[i]; }
        }
      }
    }
  }

  /** Without specials a replacement text stands for itself; each `$$` costs one character. */
  lemma {:induction false} DollarsCollapse(value: string, matched: string, before: string, after: string)
    requires !CopiesAround(value) && '&' !in Specials(value)
    ensures |Expand(value, matched, before, after)| + |Specials(value)| == |value|
    ensures Specials(value) == [] ==> Expand(value, matched, before, after) == value
    ensures Expand(value, matched, before, after) == Expand(value, "", "", "")
    ensures '@' !in value ==> '@' !in Expand(value, matched, before, after)
  {
    if |value| >= 2 {
      if value[0] == '$' && Special(value[1]) {
        assert Specials(value)[0] == value[1] && Specials(value)[1..] == Specials(value[2..]);
        DollarsCollapse(value[2..], matched, before, after);
      } else {
        DollarsCollapse(value[1..], matched, before, after);
        assert value == [value[0]] + value[1..];
      }
    } else if value != "" {
      assert value[1..] == "" && value == [value[0]];
    }
  }

  /** How often `@` occurs. */
  function Ats(s: string): nat { multiset(s)['@'] }

  /** A value with `$&` brings the match back, and with it its `@`. */
  lemma {:induction false} AmpersandKeepsTheMatch(value: string, matched: string, before: string, after: string)
    requires '&' in Specials(value)
    ensures Ats(Expand(value, matched, before, after)) >= Ats(matched)
  {
    if value[0] == '$' && Special(value[1]) {
      assert Specials(value) == [value[1]] + Specials(value[2..]);
      if value[1] != '&' { AmpersandKeepsTheMatch(value[2..], matched, before, after); }
    } else {
      AmpersandKeepsTheMatch(value[1..], matched, before, after);
    }
  }

  // ---------- the first occurrence ----------

  /** The placeholder does not show up in `done`, nor across its end, when it follows it. */
  ghost predicate FirstBehind(done: string, key: string) {
    forall i :: 0 <= i < |done| ==> !Occurs(Placeholder(key), done + Placeholder(key), i)
  }

  /** Behind text without `@` a placeholder is always the first of its kind. */
  lemma FirstBehindPlainText(done: string, key: string)
    requires '@' !in done
    ensures FirstBehind(done, key)
  {
    var pattern := Placeholder(key);
    var s := done + pattern;
    forall i | 0 <= i < |done| ensures !Occurs(pattern, s, i) {
      if i + 3 < |done| {
        assert s[i + 3] == done[i + 3] && done[i + 3] in done;
      } else {
        assert s[i + 3] == pattern[i + 3 - |done|] && i + 3 - |done| < 3;
      }
      assert s[i + 3] != pattern[3];
      if i + |pattern| <= |s| { assert s[i..i + |pattern|][3] == s[i + 3]; }
    }
  }

  lemma FirstPlaceholder(done: string, key: string, after: string)
    requires FirstBehind(done, key)
    ensures var s := done + Placeholder(key) + after;
      Occurs(Placeholder(key), s, |done|) && FirstIndex(s, Placeholder(key), 0) == |done|
  {
    var pattern := Placeholder(key);
    var s := done + pattern + after;
    assert s[|done|..|done| + |pattern|] == pattern;
    forall i | 0 <= i < |done| ensures !Occurs(pattern, s, i) {
      assert !Occurs(pattern, done + pattern, i);
      assert s[i..i + |pattern|] == (done + pattern)[i..i + |pattern|];
    }
    FirstIndexReaches(s, pattern, 0, |done|);
  }

  lemma {:induction false} FirstIndexReaches(s: string, pattern: string, i: nat, n: nat)
    requires i <= n && Occurs(pattern, s, n) && forall k :: i <= k < n ==> !Occurs(pattern, s, k)
    ensures i <= |s| && FirstIndex(s, pattern, i) == n
    decreases n - i
  {
    if i < n { FirstIndexReaches(s, pattern, i + 1, n); }
  }

  lemma ReplacesFirstPlaceholder(done: string, key: string, after: string, value: string)
    requires FirstBehind(done, key)
    ensures ReplaceFirst(done + Placeholder(key) + after, Placeholder(key), value)
         == done + Expand(value, Placeholder(key), done, after) + after
  {
    FirstPlaceholder(done, key, after);
    var s := done + Placeholder(key) + after;
    assert s[..|done|] == done && s[|done| + |Placeholder(key)|..] == after;
  }

  lemma KeyOfPlaceholder(key: string)
    ensures KeyOf(Placeholder(key)) == key
  {
  }

  lemma MatchesPlaceholder(key: string, after: string)
    requires '@' !in key
    ensures Matches(Placeholder(key) + after) == [Placeholder(key)] + Matches(after)
  {
    var s := Placeholder(key) + after;
    assert s[0..4] == OPENING;
    var end := IndexFrom(s, '@', 4);
    assert s[4 + |key|] == '@';
    forall k | 4 <= k < 4 + |key| ensures s[k] != '@' { assert s[k] == key[k - 4] && key[k - 4] in key; }
    assert end == 4 + |key|;
    assert s[..end + 1] == Placeholder(key) && s[end + 1..] == after;
  }

  lemma NoOpening(s: string)
    requires '@' !in s
    ensures !Occurs(OPENING, s, 0)
  {
    if |s| >= 4 { assert s[0..4][3] == s[3] && s[3] in s; }
  }

  lemma NoOpeningInGap(gap: string, slots: seq<Slot>)
    requires gap != "" && '@' !in gap
    ensures !Occurs(OPENING, gap + Render(slots), 0)
  {
    var s := gap + Render(slots);
    if slots == [] {
      assert s == gap;
      NoOpening(s);
    } else {
      var after := slots[0].gap + Render(slots[1..]);
      FirstOpening(gap, slots[0].key, after);
      RenderRegroups(slots);
      assert s == gap + Placeholder(slots[0].key) + after;
    }
  }

  /** Text without `@` in front of a template is passed over. */
  lemma {:induction false} MatchesSkip(gap: string, slots: seq<Slot>)
    requires '@' !in gap
    ensures Matches(gap + Render(slots)) == Matches(Render(slots))
    decreases |gap|
  {
    var s := gap + Render(slots);
    if gap == "" {
      assert s == Render(slots);
    } else {
      assert s[1..] == gap[1..] + Render(slots);
      NoOpeningInGap(gap, slots);
      MatchesSkip(gap[1..], slots);
    }
  }

  lemma FirstOpening(before: string, key: string, after: string)
    requires before != "" && '@' !in before
    ensures !Occurs(OPENING, before + Placeholder(key) + after, 0)
  {
    var s := before + Placeholder(key) + after;
    if |s| >= 4 {
      assert s[0..4][3] == s[3];
      if 3 < |before| {
        assert s[3] == before[3] && before[3] in before;
      } else {
        assert s[3] == Placeholder(key)[3 - |before|] && 3 - |before| < 3;
      }
    }
  }

  lemma RenderRegroups(slots: seq<Slot>)
    requires slots != []
    ensures Render(slots) == Placeholder(slots[0].key) + (slots[0].gap + Render(slots[1..]))
  {
  }

  lemma {:induction false} TemplateMatches(gap: string, slots: seq<Slot>)
    requires '@' !in gap && WellFormed(slots)
    ensures Matches(gap + Render(slots)) == Placeholders(slots)
    decreases |slots|
  {
    MatchesSkip(gap, slots);
    if slots != [] {
      var (slot, rest) := (slots[0], slots[1..]);
      MatchesPlaceholder(slot.key, slot.gap + Render(rest));
      RenderRegroups(slots);
      TemplateMatches(slot.gap, rest);
    }
  }

  // ---------- when sequential is simultaneous ----------

  lemma Associate(a: string, b: string, c: string, d: string)
    ensures a + b + c + d == a + (b + c + d)
  {
  }

  /** One replacement: the first placeholder left becomes its value's expansion, and the text before the next one grows. */
  lemma OneReplacement(done: string, slots: seq<Slot>, keys: map<string, string>)
    requires slots != [] && FirstBehind(done, slots[0].key)
    ensures var slot := slots[0];
      var rest := slot.gap + Render(slots[1..]);
      var value := Expand(Lookup(keys, slot.key), Placeholder(slot.key), done, rest);
      ReplaceAll(done + Render(slots), Placeholders(slots), keys)
      == ReplaceAll(done + value + slot.gap + Render(slots[1..]), Placeholders(slots[1..]), keys)
  {
    var slot := slots[0];
    var rest := slot.gap + Render(slots[1..]);
    var value := Expand(Lookup(keys, slot.key), Placeholder(slot.key), done, rest);
    KeyOfPlaceholder(slot.key);
    assert done + Render(slots) == done + Placeholder(slot.key) + rest by { RenderRegroups(slots); }
    ReplacesFirstPlaceholder(done, slot.key, rest, Lookup(keys, slot.key));
    assert done + value + rest == done + value + slot.gap + Render(slots[1..]);
    ReplaceNext(done + Render(slots), slots, keys);
  }

  lemma ReplaceNext(s: string, slots: seq<Slot>, keys: map<string, string>)
    requires slots != []
    ensures ReplaceAll(s, Placeholders(slots), keys)
         == ReplaceAll(ReplaceFirst(s, Placeholder(slots[0].key), Lookup(keys, KeyOf(Placeholder(slots[0].key)))),
                       Placeholders(slots[1..]), keys)
  {
    assert Placeholders(slots)[1..] == Placeholders(slots[1..]);
  }

  /**
   No placeholder of the template shows up in the text that ends up before it. Only values with
   an `@` can bring one there.
   */
  ghost predicate NotShadowed(done: string, slots: seq<Slot>, keys: map<string, string>) {
    forall i :: 0 <= i < |slots| ==> FirstBehind(done + Substituted(slots[..i], keys), slots[i].key)
  }

  ghost predicate AllUnsteered(slots: seq<Slot>, keys: map<string, string>) {
    forall i :: 0 <= i < |slots| ==> Unsteered(Lookup(keys, slots[i].key))
  }

  lemma NotShadowedNext(done: string, slots: seq<Slot>, keys: map<string, string>)
    requires slots != [] && NotShadowed(done, slots, keys)
    ensures FirstBehind(done, slots[0].key)
    ensures NotShadowed(done + Lookup(keys, slots[0].key) + slots[0].gap, slots[1..], keys)
  {
    var (value, gap, rest) := (Lookup(keys, slots[0].key), slots[0].gap, slots[1..]);
    assert slots[..0] == [] && done + "" == done;
    forall i | 0 <= i < |rest|
      ensures FirstBehind(done + value + gap + Substituted(rest[..i], keys), rest[i].key)
    {
      var prefix := slots[..i + 1];
      assert prefix[0] == slots[0] && prefix[1..] == rest[..i] && rest[i] == slots[i + 1];
      Associate(done, value, gap, Substituted(rest[..i], keys));
      assert done + Substituted(prefix, keys) == done + value + gap + Substituted(rest[..i], keys);
    }
  }

  lemma {:induction false} ReplacingLeftToRight(done: string, slots: seq<Slot>, keys: map<string, string>)
    requires NotShadowed(done, slots, keys) && AllUnsteered(slots, keys)
    ensures ReplaceAll(done + Render(slots), Placeholders(slots), keys) == done + Substituted(slots, keys)
    decreases |slots|
  {
    if slots != [] {
      var (slot, rest) := (slots[0], slots[1..]);
      var value := Lookup(keys, slot.key);
      NotShadowedNext(done, slots, keys);
      OneReplacement(done, slots, keys);
      UnsteeredMeansNoSpecials(value);
      DollarsCollapse(value, Placeholder(slot.key), done, slot.gap + Render(rest));
      ReplacingLeftToRight(done + value + slot.gap, rest, keys);
      Associate(done, value, slot.gap, Substituted(rest, keys));
    }
  }

  /**
   Replacing the matches one after the other is the simultaneous substitution, also when keys
   repeat: every placeholder gets its own value, as long as no value steers `replace` and no
   placeholder shows up in what is put before it.
   */
  lemma SequentialIsSimultaneous(gap: string, slots: seq<Slot>, keys: map<string, string>)
    requires '@' !in gap && WellFormed(slots) && AllUnsteered(slots, keys) && NotShadowed(gap, slots, keys)
    ensures BuildStorage(gap + Render(slots), keys) == gap + Substituted(slots, keys)
  {
    TemplateMatches(gap, slots);
    ReplacingLeftToRight(gap, slots, keys);
  }

  // ---------- exactly when, for values without `@` ----------

  /** Values without `@` that do not copy the text around them. */
  ghost predicate PlainValues(slots: seq<Slot>, keys: map<string, string>) {
    forall i :: 0 <= i < |slots| ==>
      var v := Lookup(keys, slots[i].key); '@' !in v && !CopiesAround(v)
  }

  lemma {:induction false} PlainSubstitution(slots: seq<Slot>, keys: map<string, string>)
    requires WellFormed(slots) && PlainValues(slots, keys)
    ensures '@' !in Substituted(slots, keys)
  {
    if slots != [] { PlainSubstitution(slots[1..], keys); }
  }

  lemma PlainValuesDoNotShadow(done: string, slots: seq<Slot>, keys: map<string, string>)
    requires '@' !in done && WellFormed(slots) && PlainValues(slots, keys)
    ensures NotShadowed(done, slots, keys)
  {
    forall i | 0 <= i < |slots| ensures FirstBehind(done + Substituted(slots[..i], keys), slots[i].key) {
      PlainSubstitution(slots[..i], keys);
      FirstBehindPlainText(done + Substituted(slots[..i], keys), slots[i].key);
    }
  }

  /** One replacement removes one placeholder at most, and none when its value brings it back. */
  lemma ReplacingRemovesOne(s: string, key: string, value: string)
    requires '@' !in key
    ensures Ats(ReplaceFirst(s, Placeholder(key), value)) + 2 >= Ats(s)
    ensures '&' in Specials(value) ==> Ats(ReplaceFirst(s, Placeholder(key), value)) >= Ats(s)
  {
    var pattern := Placeholder(key);
    var i := FirstIndex(s, pattern, 0);
    assert Ats(pattern) == 2 by { assert multiset(pattern) == multiset(OPENING) + multiset(key) + multiset("@"); }
    if Occurs(pattern, s, i) {
      var (before, after) := (s[..i], s[i + |pattern|..]);
      assert s == before + pattern + after;
      if '&' in Specials(value) { AmpersandKeepsTheMatch(value, pattern, before, after); }
    }
  }

  /** Some placeholder survives when some value brings its own back. */
  lemma {:induction false} PlaceholdersSurvive(s: string, slots: seq<Slot>, keys: map<string, string>)
    requires WellFormed(slots)
    ensures Ats(ReplaceAll(s, Placeholders(slots), keys)) + 2 * |slots| >= Ats(s)
    ensures (exists i :: 0 <= i < |slots| && '&' in Specials(Lookup(keys, slots[i].key)))
        ==> Ats(ReplaceAll(s, Placeholders(slots), keys)) + 2 * |slots| >= Ats(s) + 2
    decreases |slots|
  {
    if slots != [] {
      var (slot, rest) := (slots[0], slots[1..]);
      var value := Lookup(keys, slot.key);
      var next := ReplaceFirst(s, Placeholder(slot.key), value);
      KeyOfPlaceholder(slot.key);
      assert Placeholders(slots)[1..] == Placeholders(rest);
      assert WellFormed(rest) by { forall i | 0 <= i < |rest| ensures rest[i] == slots[i + 1] {} }
      ReplacingRemovesOne(s, slot.key, value);
      PlaceholdersSurvive(next, rest, keys);
      if i :| 0 < i < |slots| && '&' in Specials(Lookup(keys, slots[i].key)) {
        assert slots[i] == rest[i - 1];
      }
    }
  }

  lemma {:induction false} TwoAtsEach(slots: seq<Slot>)
    requires WellFormed(slots)
    ensures Ats(Render(slots)) == 2 * |slots|
  {
    if slots != [] {
      assert multiset(Render(slots)) == multiset(OPENING) + multiset(slots[0].key) + multiset("@")
          + multiset(slots[0].gap) + multiset(Render(slots[1..]));
      assert WellFormed(slots[1..]) by {
        forall i | 0 <= i < |slots[1..]| ensures slots[1..][i] == slots[i + 1] {}
      }
      TwoAtsEach(slots[1..]);
    }
  }

  lemma AtsRemain(gap: string, slots: seq<Slot>, keys: map<string, string>)
    requires '@' !in gap && WellFormed(slots) && PlainValues(slots, keys)
    requires exists i :: 0 <= i < |slots| && '&' in Specials(Lookup(keys, slots[i].key))
    ensures Ats(ReplaceAll(gap + Render(slots), Placeholders(slots), keys)) >= 2
    ensures Ats(gap + Substituted(slots, keys)) == 0
  {
    PlaceholdersSurvive(gap + Render(slots), slots, keys);
    TwoAtsEach(slots);
    PlainSubstitution(slots, keys);
    assert Ats(gap + Render(slots)) == Ats(gap) + Ats(Render(slots));
  }

  /** How many characters the `$$` of all values cost. */
  function Lost(slots: seq<Slot>, keys: map<string, string>): nat {
    if slots == [] then 0 else |Specials(Lookup(keys, slots[0].key))| + Lost(slots[1..], keys)
  }

  lemma {:induction false} NothingLost(slots: seq<Slot>, keys: map<string, string>)
    ensures Lost(slots, keys) == 0 <==> AllUnsteered(slots, keys)
  {
    if slots != [] {
      var rest := slots[1..];
      NothingLost(rest, keys);
      UnsteeredMeansNoSpecials(Lookup(keys, slots[0].key));
      forall i | 0 <= i < |rest| ensures rest[i] == slots[i + 1] {}
      if Lost(slots, keys) == 0 {
        forall i | 0 <= i < |slots| ensures Unsteered(Lookup(keys, slots[i].key)) {
          if i > 0 { assert slots[i] == rest[i - 1]; }
        }
      }
    }
  }

  /** When no value brings its placeholder back, the result is shorter by exactly the lost dollars. */
  lemma {:induction false} DollarsAreLost(done: string, slots: seq<Slot>, keys: map<string, string>)
    requires '@' !in done && WellFormed(slots) && PlainValues(slots, keys)
    requires forall i :: 0 <= i < |slots| ==> '&' !in Specials(Lookup(keys, slots[i].key))
    ensures |ReplaceAll(done + Render(slots), Placeholders(slots), keys)| + Lost(slots, keys)
         == |done + Substituted(slots, keys)|
    decreases |slots|
  {
    if slots != [] {
      var (slot, rest) := (slots[0], slots[1..]);
      var after := slot.gap + Render(rest);
      var value := Expand(Lookup(keys, slot.key), Placeholder(slot.key), done, after);
      FirstBehindPlainText(done, slot.key);
      OneReplacement(done, slots, keys);
      DollarsCollapse(Lookup(keys, slot.key), Placeholder(slot.key), done, after);
      DollarsAreLost(done + value + slot.gap, rest, keys);
    }
  }

  /**
   For values without `@` that do not copy the text around the match, the replacement is the
   simultaneous substitution exactly when no value steers it.
   */
  lemma SimultaneousExactlyWhen(gap: string, slots: seq<Slot>, keys: map<string, string>)
    requires '@' !in gap && WellFormed(slots) && PlainValues(slots, keys)
    ensures BuildStorage(gap + Render(slots), keys) == gap + Substituted(slots, keys) <==> AllUnsteered(slots, keys)
  {
    TemplateMatches(gap, slots);
    if AllUnsteered(slots, keys) {
      PlainValuesDoNotShadow(gap, slots, keys);
      SequentialIsSimultaneous(gap, slots, keys);
    } else if exists i :: 0 <= i < |slots| && '&' in Specials(Lookup(keys, slots[i].key)) {
      AtsRemain(gap, slots, keys);
    } else {
      DollarsAreLost(gap, slots, keys);
      NothingLost(slots, keys);
    }
  }

  // ---------- where the two differ, and where they agree by chance ----------

  /**
   A first value that is the second placeholder itself is replaced in its place, so the result
   differs from the simultaneous substitution.
   */
  lemma PlaceholderValuesAreReplacedAgain(k: string, l: string, keys: map<string, string>)
    requires '@' !in k && '@' !in l && '$' !in l && k in keys && l in keys
    requires keys[k] == Placeholder(l) && keys[l] != "" && '@' !in keys[l] && Unsteered(keys[l])
    ensures var slots := [Slot(k, ""), Slot(l, "")];
      BuildStorage(Render(slots), keys) == keys[l] + Placeholder(l) != Substituted(slots, keys)
  {
    assert BuildStorage(Render([Slot(k, ""), Slot(l, "")]), keys) == keys[l] + Placeholder(l) by {
      TwoSlotsBuilt(k, l, keys);
      PlaceholderHasNoDollar(l);
      TwoReplacements(k, l, keys);
    }
    TwoSlots(k, l, keys);
    SwappedDiffer(l, keys[l]);
  }

  lemma PlaceholderHasNoDollar(key: string)
    requires '$' !in key
    ensures '$' !in Placeholder(key)
  {
  }

  lemma TwoSlotsBuilt(k: string, l: string, keys: map<string, string>)
    requires '@' !in k && '@' !in l
    ensures BuildStorage(Render([Slot(k, ""), Slot(l, "")]), keys)
         == ReplaceAll(Placeholder(k) + Placeholder(l), [Placeholder(k), Placeholder(l)], keys)
  {
    var slots := [Slot(k, ""), Slot(l, "")];
    TwoSlots(k, l, keys);
    TemplateMatches("", slots);
    assert "" + Render(slots) == Render(slots);
  }

  lemma SwappedDiffer(l: string, value: string)
    requires value != "" && '@' !in value
    ensures value + Placeholder(l) != Placeholder(l) + value
  {
    var x := value + Placeholder(l);
    assert (Placeholder(l) + value)[3] == '@';
    if |value| > 3 {
      assert x[3] == value[3] && value[3] in value;
    } else {
      assert x[3] == Placeholder(l)[3 - |value|] && 0 <= 3 - |value| < 3;
    }
  }

  lemma TwoReplacements(k: string, l: string, keys: map<string, string>)
    requires '@' !in k && '@' !in l && '$' !in Placeholder(l)
    requires Unsteered(Lookup(keys, l)) && Lookup(keys, k) == Placeholder(l)
    ensures ReplaceAll(Placeholder(k) + Placeholder(l), [Placeholder(k), Placeholder(l)], keys)
         == Lookup(keys, l) + Placeholder(l)
  {
    var (p, q) := (Placeholder(k), Placeholder(l));
    NoDollarIsUnsteered(q);
    ReplaceHead(k, q, [q], keys);
    assert [p] + [q] == [p, q];
    ReplaceHead(l, q, [], keys);
    assert [q] + [] == [q];
  }

  lemma NoDollarIsUnsteered(value: string)
    requires '$' !in value
    ensures Unsteered(value)
  {
    forall i | 0 <= i < |value| ensures value[i] != '$' { assert value[i] in value; }
  }

  lemma ReplaceHead(key: string, after: string, matches: seq<string>, keys: map<string, string>)
    requires '@' !in key && Unsteered(Lookup(keys, key))
    ensures ReplaceAll(Placeholder(key) + after, [Placeholder(key)] + matches, keys)
         == ReplaceAll(Lookup(keys, key) + after, matches, keys)
  {
    KeyOfPlaceholder(key);
    ReplaceAtStart(key, after, Lookup(keys, key));
    assert ([Placeholder(key)] + matches)[1..] == matches;
  }

  lemma ReplaceAtStart(key: string, after: string, value: string)
    requires Unsteered(value)
    ensures ReplaceFirst(Placeholder(key) + after, Placeholder(key), value) == value + after
  {
    ReplacesFirstPlaceholder("", key, after, value);
    UnsteeredMeansNoSpecials(value);
    DollarsCollapse(value, Placeholder(key), "", after);
    assert "" + Placeholder(key) + after == Placeholder(key) + after;
    assert "" + value + after == value + after;
  }

  lemma TwoSlots(k: string, l: string, keys: map<string, string>)
    ensures var slots := [Slot(k, ""), Slot(l, "")];
      && Render(slots) == Placeholder(k) + Placeholder(l)
      && Substituted(slots, keys) == Lookup(keys, k) + Lookup(keys, l)
      && Placeholders(slots) == [Placeholder(k), Placeholder(l)]
  {
    var slots := [Slot(k, ""), Slot(l, "")];
    assert slots[1..] == [Slot(l, "")] && slots[1..][1..] == [];
    assert Render(slots[1..]) == Placeholder(l) + "" + "";
    assert Substituted(slots[1..], keys) == Lookup(keys, l) + "" + "";
    assert Placeholders(slots[1..]) == [Placeholder(l)] + [];
  }

  /** A value `$&` is never copied: replacing brings the placeholder itself back. */
  lemma DollarValuesAreNotCopied(k: string, keys: map<string, string>)
    requires '@' !in k && k in keys && keys[k] == "$&"
    ensures var slots := [Slot(k, "")];
      BuildStorage(Render(slots), keys) == Placeholder(k) && Substituted(slots, keys) == "$&"
  {
    var slots := [Slot(k, "")];
    var s := Placeholder(k);
    OneSlot(k, keys);
    TemplateMatches("", slots);
    assert "" + Render(slots) == Render(slots);
    KeyOfPlaceholder(k);
    DollarAmpersand(k);
    assert ReplaceAll(s, [s], keys) == ReplaceAll(s, [], keys) by { assert [s][1..] == []; }
  }

  lemma OneSlot(k: string, keys: map<string, string>)
    ensures var slots := [Slot(k, "")];
      && Render(slots) == Placeholder(k)
      && Substituted(slots, keys) == Lookup(keys, k)
      && Placeholders(slots) == [Placeholder(k)]
  {
    var slots := [Slot(k, "")];
    assert slots[1..] == [];
    assert Render(slots) == Placeholder(k) + "" + "";
    assert Substituted(slots, keys) == Lookup(keys, k) + "" + "";
    assert Placeholders(slots) == [Placeholder(k)] + [];
  }

  lemma DollarAmpersand(k: string)
    requires '@' !in k
    ensures ReplaceFirst(Placeholder(k), Placeholder(k), "$&") == Placeholder(k)
  {
    var s := Placeholder(k);
    FirstPlaceholder("", k, "");
    assert "" + s + "" == s;
    assert "$&"[2..] == "";
    assert Expand("$&", s, "", "") == s + Expand("", s, "", "");
    assert s[..0] == "" && s[0 + |s|..] == "";
    assert "" + (s + "") + "" == s;
  }

  /** A shadowed placeholder may still come out right: here each placeholder is replaced by itself. */
  lemma ShadowedMayCoincide(k: string, keys: map<string, string>)
    requires '@' !in k && '$' !in Placeholder(k) && k in keys && keys[k] == Placeholder(k)
    ensures var slots := [Slot(k, ""), Slot(k, "")];
      && BuildStorage(Render(slots), keys) == Substituted(slots, keys)
      && AllUnsteered(slots, keys) && !NotShadowed("", slots, keys)
  {
    TwoSlots(k, k, keys);
    TwoSlotsBuilt(k, k, keys);
    NoDollarIsUnsteered(Placeholder(k));
    TwoReplacements(k, k, keys);
    SecondIsShadowed(k, keys);
  }

  lemma SecondIsShadowed(k: string, keys: map<string, string>)
    requires Lookup(keys, k) == Placeholder(k)
    ensures !NotShadowed("", [Slot(k, ""), Slot(k, "")], keys)
  {
    var (slots, p) := ([Slot(k, ""), Slot(k, "")], Placeholder(k));
    OneSlot(k, keys);
    assert slots[..1] == [Slot(k, "")];
    assert "" + p == p && (p + p)[0..|p|] == p;
    assert Occurs(p, "" + Substituted(slots[..1], keys) + p, 0);
    assert !FirstBehind("" + Substituted(slots[..1], keys), slots[1].key);
  }

  /** A value that copies the text before it may copy itself. */
  lemma CopyingMayCoincide(k: string, keys: map<string, string>)
    requires '@' !in k && k in keys && keys[k] == "$`"
    ensures var slots := [Slot(k, "")];
      && BuildStorage("$`" + Render(slots), keys) == "$`" + Substituted(slots, keys)
      && !AllUnsteered(slots, keys)
  {
    var (slots, gap) := ([Slot(k, "")], "$`");
    OneSlot(k, keys);
    TemplateMatches(gap, slots);
    FirstBehindPlainText(gap, k);
    OneReplacement(gap, slots, keys);
    assert slots[1..] == [] && Render(slots[1..]) == "";
    assert gap[2..] == "" && Expand(gap, Placeholder(k), gap, "" + "") == gap + Expand("", Placeholder(k), gap, "" + "");
    assert gap + gap + "" + "" == gap + gap;
  }

  // ---------- how a value is read ----------

  lemma RenderOne(k: string, after: string)
    ensures var slots := [Slot(k, after)];
      && Render(slots) == Placeholder(k) + after && Placeholders(slots) == [Placeholder(k)]
      && Render(slots[1..]) == "" && Placeholders(slots[1..]) == []
  {
    var slots := [Slot(k, after)];
    assert slots[1..] == [] && Render(slots) == Placeholder(k) + after + "";
    assert Placeholders(slots) == [Placeholder(k)] + [];
  }

  lemma MatchesOne(before: string, k: string, after: string)
    requires '@' !in before && '@' !in k && '@' !in after
    ensures Matches(before + Placeholder(k) + after) == [Placeholder(k)]
  {
    RenderOne(k, after);
    assert before + Placeholder(k) + after == before + Render([Slot(k, after)]);
    TemplateMatches(before, [Slot(k, after)]);
  }

  lemma ReplaceOne(s: string, matched: string, keys: map<string, string>)
    ensures ReplaceAll(s, [matched], keys) == ReplaceFirst(s, matched, Lookup(keys, KeyOf(matched)))
  {
    assert [matched][1..] == [];
  }

  /** One placeholder between two gaps becomes the expansion of its value. */
  lemma OnePlaceholder(before: string, k: string, after: string, keys: map<string, string>)
    requires '@' !in before && '@' !in k && '@' !in after
    ensures BuildStorage(before + Placeholder(k) + after, keys)
         == before + Expand(Lookup(keys, k), Placeholder(k), before, after) + after
  {
    MatchesOne(before, k, after);
    ReplaceOne(before + Placeholder(k) + after, Placeholder(k), keys);
    KeyOfPlaceholder(k);
    FirstBehindPlainText(before, k);
    ReplacesFirstPlaceholder(before, k, after, Lookup(keys, k));
  }

  lemma ExpandPair(pair: string, matched: string, before: string, after: string)
    requires |pair| == 2 && pair[0] == '$' && Special(pair[1])
    ensures Expand(pair, matched, before, after)
         == match pair[1] case '$' => "$" case '&' => matched case '`' => before case _ => after
  {
    assert pair[2..] == "" && Expand(pair[2..], matched, before, after) == "";
  }

  /** The four special values, each alone in its place: a dollar, the match, the text before it, the text after it. */
  lemma SpecialValues(before: string, k: string, after: string, c: char, keys: map<string, string>)
    requires '@' !in before && '@' !in k && '@' !in after && Special(c) && Lookup(keys, k) == ['$', c]
    ensures BuildStorage(before + Placeholder(k) + after, keys)
         == before + (match c case '$' => "$" case '&' => Placeholder(k) case '`' => before case _ => after) + after
  {
    OnePlaceholder(before, k, after, keys);
    ExpandPair(['$', c], Placeholder(k), before, after);
  }

  /** A key that is not bound reads as `undefined`. */
  lemma UnboundReadsUndefined(before: string, k: string, after: string, keys: map<string, string>)
    requires '@' !in before && '@' !in k && '@' !in after && k !in keys
    ensures BuildStorage(before + Placeholder(k) + after, keys) == before + "undefined" + after
  {
    OnePlaceholder(before, k, after, keys);
    NoDollarIsUnsteered("undefined");
    UnsteeredMeansNoSpecials("undefined");
    DollarsCollapse("undefined", Placeholder(k), before, after);
  }
}
