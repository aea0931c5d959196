/**
 * The toast notification of the portfolio page (`showNotification` in
 * main.js) and the two features that report through it: the skill tags
 * (`initSkills`) and the contact copy buttons (`initCopy`).
 */
module Notifications {
  import opened Wrappers

  /** The classes the icon element is reset to before the glyph is added. */
  const BaseIconClasses: seq<string> := ["notification-icon", "fas"]

  /** The four glyph classes a notification icon can carry. */
  const IconGlyphs: set<string> :=
    {"fa-check-circle", "fa-exclamation-circle", "fa-exclamation-triangle", "fa-info-circle"}

  /**
   * The glyph for a severity: "success", "error" and "warning" each have
   * their own, and every other severity, "info" included, shows the info
   * glyph.
   */
  function IconGlyph(severity: string): (r: string)
    ensures r in IconGlyphs
    ensures r == "fa-check-circle" <==> severity == "success"
    ensures r == "fa-exclamation-circle" <==> severity == "error"
    ensures r == "fa-exclamation-triangle" <==> severity == "warning"
    ensures r == "fa-info-circle" <==> severity !in {"success", "error", "warning"}
  {
    if severity == "success" then "fa-check-circle"
    else if severity == "error" then "fa-exclamation-circle"
    else if severity == "warning" then "fa-exclamation-triangle"
    else "fa-info-circle"
  }

  /**
   * The icon's class list after a notification, replacing whatever the icon
   * carried before: the base classes plus exactly one glyph, the severity's.
   */
  function IconClasses(severity: string): (r: seq<string>)
    ensures |r| == |BaseIconClasses| + 1 && r[..|BaseIconClasses|] == BaseIconClasses
    ensures forall c :: c in r && c in IconGlyphs ==> c == IconGlyph(severity)
    ensures IconGlyph(severity) in r
  {
    BaseIconClasses + [IconGlyph(severity)]
  }

  /** Distinct known severities never share a glyph. */
  lemma GlyphsDistinct(a: string, b: string)
    requires a in {"success", "error", "warning", "info"} && b in {"success", "error", "warning", "info"}
    requires a != b
    ensures IconGlyph(a) != IconGlyph(b)
  {
  }

  /** The notification surface; `present` is false on a page without `#notification`. */
  class NotificationCenter {
    const present: bool
    /** `.notification-text` content. */
    var text: string
    /** `.notification-icon` class list. */
    var iconClasses: seq<string>
    /** Whether the surface carries the `show` class. */
    var shown: bool

    /** The surface as the page's markup gives it. */
    constructor (present: bool, text: string, iconClasses: seq<string>, shown: bool)
      ensures this.present == present && this.text == text
      ensures this.iconClasses == iconClasses && this.shown == shown
    {
      this.present := present;
      this.text := text;
      this.iconClasses := iconClasses;
      this.shown := shown;
    }

    /**
     * `showNotification(message, severity)`: sets the text, resets the icon
     * to one glyph and shows the surface; does nothing without a surface.
     */
    method Show(message: string, severity: string)
      modifies this
      ensures present ==> text == message && iconClasses == IconClasses(severity) && shown
      ensures !present ==> unchanged(this)
    {
      if !present {
        return;
      }
      text := message;
      iconClasses := BaseIconClasses;
      iconClasses := iconClasses + [IconGlyph(severity)];
      shown := true;
    }

    /**
     * The hide timer a `Show` schedules: it removes `show` and leaves the
     * text and icon. Earlier timers are never cancelled, so whichever one
     * runs hides the notification showing at that moment.
     */
    method Hide()
      requires present
      modifies this`shown
      ensures !shown
    {
      shown := false;
    }
  }

  /**
   * The characters `String.prototype.trim` removes: the ECMAScript
   * WhiteSpace and LineTerminator characters.
   */
  predicate IsTrimmable(c: char) {
    c == '\t' || c == '\n' || c == '\U{000B}' || c == '\U{000C}' || c == '\r' ||
    c == ' ' || c == '\U{00A0}' || c == '\U{1680}' || ('\U{2000}' <= c <= '\U{200A}') ||
    c == '\U{2028}' || c == '\U{2029}' || c == '\U{202F}' || c == '\U{205F}' ||
    c == '\U{3000}' || c == '\U{FEFF}'
  }

  /** `s` without its leading trimmable characters. */
  function TrimStart(s: string): (r: string)
    ensures |r| <= |s| && r == s[|s| - |r|..]
    ensures r == [] || !IsTrimmable(r[0])
    ensures forall k :: 0 <= k < |s| - |r| ==> IsTrimmable(s[k])
  {
    if |s| > 0 && IsTrimmable(s[0]) then TrimStart(s[1..]) else s
  }

  /** `s` without its trailing trimmable characters. */
  function TrimEnd(s: string): (r: string)
    ensures |r| <= |s| && r == s[..|r|]
    ensures r == [] || !IsTrimmable(r[|r| - 1])
    ensures forall k :: |r| <= k < |s| ==> IsTrimmable(s[k])
  {
    if |s| > 0 && IsTrimmable(s[|s| - 1]) then TrimEnd(s[..|s| - 1]) else s
  }

  /**
   * `r` is the slice of `s` starting at `i`, and everything of `s` before
   * and after that slice is trimmable.
   */
  ghost predicate TrimmedAt(s: string, r: string, i: nat) {
    i + |r| <= |s| && r == s[i..i + |r|] &&
    (forall k :: 0 <= k < i ==> IsTrimmable(s[k])) &&
    (forall k :: i + |r| <= k < |s| ==> IsTrimmable(s[k]))
  }

  /**
   * `String.prototype.trim`: `s` with its leading and trailing trimmable
   * characters removed and nothing else.
   */
  function Trim(s: string): (r: string)
    ensures exists i :: TrimmedAt(s, r, i)
    ensures r == [] || (!IsTrimmable(r[0]) && !IsTrimmable(r[|r| - 1]))
  {
    var t := TrimStart(s);
    var r := TrimEnd(t);
    var i := |s| - |t|;
    assert forall k :: i + |r| <= k < |s| ==> s[k] == t[k - i];
    assert TrimmedAt(s, r, i);
    r
  }

  /** Trimming is idempotent: a trimmed name is left alone. */
  lemma TrimIdempotent(s: string)
    ensures Trim(Trim(s)) == Trim(s)
  {
    var t := Trim(s);
    assert TrimStart(t) == t;
    assert TrimEnd(t) == t;
  }

  /** The level shown for a tag: its `data-skill`, or an em dash when that is absent or empty. */
  function SkillLevel(skill: Option<string>): (r: string)
    ensures r != ""
    ensures skill.Some? && skill.value != "" ==> r == skill.value
    ensures skill.None? || skill.value == "" ==> r == "—"
  {
    if skill.Some? && skill.value != "" then skill.value else "—"
  }

  /** The text a click on a skill tag reports: `name — level%`. */
  function SkillMessage(tagText: string, skill: Option<string>): (r: string)
    ensures var name := Trim(tagText);
            var level := SkillLevel(skill);
            |r| == |name| + |level| + 4 &&
            r[..|name|] == name && r[|name|..|name| + 3] == " — " &&
            r[|name| + 3..|r| - 1] == level && r[|r| - 1] == '%'
  {
    Trim(tagText) + " — " + SkillLevel(skill) + "%"
  }

  /** A click on a skill tag: an info notification with the tag's message. */
  method ClickSkillTag(center: NotificationCenter, tagText: string, skill: Option<string>)
    modifies center
    ensures center.present ==>
      center.text == SkillMessage(tagText, skill) && center.shown &&
      center.iconClasses == BaseIconClasses + ["fa-info-circle"]
    ensures !center.present ==> unchanged(center)
  {
    center.Show(SkillMessage(tagText, skill), "info");
  }

  /** Message and severity reported after the clipboard write settles. */
  datatype Report = Report(message: string, severity: string)

  /**
   * What `navigator.clipboard.writeText` does: its promise resolves or
   * rejects, or there is no clipboard API at all (a page outside a secure
   * context), in which case the call throws inside the click handler before
   * any promise exists.
   */
  datatype ClipboardOutcome = Written | Rejected | Unavailable

  /**
   * The report a copy button produces: none when its `data-text` is absent
   * or empty (nothing is written) or when the clipboard API is missing (the
   * handler throws and no `.catch` runs); otherwise success when the write
   * resolved and error when it rejected.
   */
  function CopyReport(payload: Option<string>, outcome: ClipboardOutcome): (r: Option<Report>)
    ensures r.None? <==> payload.None? || payload.value == "" || outcome == Unavailable
    ensures r.Some? ==> (r.value.severity == "success" <==> outcome == Written)
    ensures r.Some? ==> (r.value.severity == "error" <==> outcome == Rejected)
    ensures r.Some? ==> IconGlyph(r.value.severity) ==
                        if outcome == Written then "fa-check-circle" else "fa-exclamation-circle"
  {
    if payload.None? || payload.value == "" then None
    else match outcome
      case Written => Some(Report("Скопировано!", "success"))
      case Rejected => Some(Report("Не удалось скопировать", "error"))
      case Unavailable => None
  }

  /**
   * A click on a copy button whose clipboard write ended as `outcome`:
   * the report, if any, is shown; nothing else changes.
   */
  method ClickCopy(center: NotificationCenter, payload: Option<string>, outcome: ClipboardOutcome)
    modifies center
    ensures var r := CopyReport(payload, outcome);
            if r.Some? && center.present
            then center.text == r.value.message && center.shown &&
                 center.iconClasses == IconClasses(r.value.severity)
            else unchanged(center)
  {
    var r := CopyReport(payload, outcome);
    if r.Some? {
      center.Show(r.value.message, r.value.severity);
    }
  }
}
