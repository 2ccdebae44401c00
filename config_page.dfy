/**
 * The action editor of the dashboard (UI/src/app/config/page.tsx): how it
 * rewrites the config it holds when an action field is edited, an action is
 * added or removed, a command is edited, or a media file is uploaded. The
 * config is `None` before it has loaded; every helper leaves it alone then.
 */
module ConfigPage {
  import opened Wrappers
  import opened Text
  import opened Decimal
  import opened Json
  import opened Lists

  /** The config: the actions by id, and every other top-level field, which the action editor never touches. */
  datatype Config = Config(actions: map<string, Obj>, rest: Obj)

  /** The action under `id`, or the empty object `{...undefined}` gives when there is none. */
  function ActionIn(c: Config, id: string): Obj {
    if id in c.actions then c.actions[id] else map[]
  }

  // ---- Paths ----

  /** The first segment of a path: the top-level field it names. */
  function Head(path: string): string {
    Split(path, '.')[0]
  }

  /** The second segment of a dotted path: the field inside the parent object. */
  function Child(path: string): string
    requires '.' in path
  {
    Split(path, '.')[1]
  }

  lemma PathSegments(parent: string, child: string)
    requires '.' !in parent && '.' !in child
    ensures '.' in parent + "." + child
    ensures Head(parent + "." + child) == parent && Child(parent + "." + child) == child
  {
    var path := parent + "." + child;
    assert path[|parent|] == '.';
    assert path == parent + ['.'] + child;
    SplitAfterPiece(parent, '.', child);
    SplitWithoutSeparator(child, '.');
  }

  lemma PlainPath(field: string)
    requires '.' !in field
    ensures Head(field) == field
  {
    SplitWithoutSeparator(field, '.');
  }

  // ---- updateAction ----

  /** The fields a spread makes of a sequence: element `i` under the key `i.toString()`, and nothing else. */
  function Indexed(elems: seq<Json>): (fields: Obj)
    ensures forall i :: 0 <= i < |elems| ==> NatToString(i) in fields && fields[NatToString(i)] == elems[i]
    ensures forall k :: k in fields ==> exists i :: 0 <= i < |elems| && k == NatToString(i)
    ensures forall k :: k in fields ==> AllDigits(k)
  {
    NatToStringInjective();
    map i | 0 <= i < |elems| :: NatToString(i) := elems[i]
  }

  /**
   * `{...v}`: the fields an object spread copies out of `v`. An object gives
   * its fields, an array or a string its elements under their decimal
   * index, anything else nothing.
   */
  function Spread(v: Json): (fields: Obj)
    ensures forall k :: k in fields && !AllDigits(k) ==> v.JObj? && k in v.fields && fields[k] == v.fields[k]
    ensures v.JObj? ==> fields == v.fields
    ensures v.JArr? ==> forall i :: 0 <= i < |v.items| ==> NatToString(i) in fields && fields[NatToString(i)] == v.items[i]
    ensures v.JStr? ==> forall i :: 0 <= i < |v.s| ==> NatToString(i) in fields && fields[NatToString(i)] == JStr([v.s[i]])
    ensures v.JArr? ==> forall k :: k in fields ==> exists i :: 0 <= i < |v.items| && k == NatToString(i)
    ensures v.JStr? ==> forall k :: k in fields ==> exists i :: 0 <= i < |v.s| && k == NatToString(i)
    ensures !v.JObj? && !v.JArr? && !v.JStr? ==> fields == map[]
  {
    match v
    case JObj(fs) => fs
    case JArr(items) => Indexed(items)
    case JStr(s) => Indexed(seq(|s|, i requires 0 <= i < |s| => JStr([s[i]])))
    case _ => map[]
  }

  /** The fields the nested update starts from: `action[parent] || {}`, spread. */
  function ParentFields(a: Obj, parent: string): Obj {
    if parent in a then Spread(a[parent]) else map[]
  }

  /**
   * The action `updateAction` builds: for "parent.child" the parent object
   * with `child` set (the first two segments only), otherwise the top-level
   * field `path` set.
   */
  function SetPath(a: Obj, path: string, value: Json): Obj {
    if '.' in path then a[Head(path) := JObj(ParentFields(a, Head(path))[Child(path) := value])]
    else a[path := value]
  }

  /** `updateAction(id, path, value)`. */
  function UpdateAction(config: Option<Config>, id: string, path: string, value: Json): Option<Config> {
    if config.None? then None
    else
      var c := config.value;
      Some(c.(actions := c.actions[id := SetPath(ActionIn(c, id), path, value)]))
  }

  /** The value an action holds at `path`, read with the same two-segment addressing. */
  function Field(a: Obj, path: string): Option<Json> {
    if '.' in path then
      if Head(path) in a && a[Head(path)].JObj? && Child(path) in a[Head(path)].fields
      then Some(a[Head(path)].fields[Child(path)]) else None
    else if path in a then Some(a[path]) else None
  }

  /** Reading the path just written gives the value written. */
  lemma SetPathThenField(a: Obj, path: string, value: Json)
    ensures Field(SetPath(a, path, value), path) == Some(value)
  {}

  /** Only the top-level field the path names is replaced; every other field is kept. */
  lemma SetPathKeepsOtherFields(a: Obj, path: string, value: Json)
    ensures SetPath(a, path, value).Keys == a.Keys + {Head(path)}
    ensures forall f :: f in a && f != Head(path) ==> SetPath(a, path, value)[f] == a[f]
  {
    if '.' !in path {
      PlainPath(path);
    }
  }

  /** A path under another top-level field reads the same before and after. */
  lemma SetPathOtherField(a: Obj, path: string, value: Json, other: string)
    requires Head(other) != Head(path)
    ensures Field(SetPath(a, path, value), other) == Field(a, other)
  {
    if '.' !in path {
      PlainPath(path);
    }
    if '.' !in other {
      PlainPath(other);
    }
  }

  /**
   * Within the parent object only `child` changes: a sibling reads the same
   * before and after, unless the parent was an array or a string, whose
   * elements the spread turns into fields named by index.
   */
  lemma SetPathSibling(a: Obj, path: string, value: Json, other: string)
    requires '.' in path && '.' in other
    requires Head(other) == Head(path) && Child(other) != Child(path)
    requires !AllDigits(Child(other)) || !(Head(path) in a && (a[Head(path)].JArr? || a[Head(path)].JStr?))
    ensures Field(SetPath(a, path, value), other) == Field(a, other)
  {}

  /** `updateAction` with no config loaded does nothing; otherwise it rewrites only the action under `id`. */
  lemma UpdateActionFrame(config: Option<Config>, id: string, path: string, value: Json)
    ensures config.None? ==> UpdateAction(config, id, path, value) == None
    ensures config.Some? ==>
      var r := UpdateAction(config, id, path, value).value;
      && r.rest == config.value.rest
      && r.actions.Keys == config.value.actions.Keys + {id}
      && Field(r.actions[id], path) == Some(value)
      && forall k :: k in config.value.actions && k != id ==> r.actions[k] == config.value.actions[k]
  {}

  // ---- addAction / removeAction ----

  /** The record a new action starts with. */
  const DefaultAction: Obj := map[
    "screen" := JStr("1"),
    "commands" := JArr([]),
    "play_media" := JObj(map[
      "type" := JStr("video"),
      "media_path" := JStr(""),
      "max_duration" := JStr("10s"),
      "volume" := JNum(0.5)]),
    "skip_on_next_action" := JBool(true),
    "show_user_info" := JBool(true),
    "display_text" := JStr("")]

  /** The id `addAction` picks: one more than the number of actions, in decimal. */
  function NewActionId(c: Config): string {
    NatToString(|c.actions| + 1)
  }

  /** `addAction()` as written: the default record under `NewActionId`, replacing any action already there. */
  function AddAction(config: Option<Config>): Option<Config> {
    if config.None? then None
    else
      var c := config.value;
      Some(c.(actions := c.actions[NewActionId(c) := DefaultAction]))
  }

  /** `removeAction(id)`: drop the action under `id`. */
  function RemoveAction(config: Option<Config>, id: string): Option<Config> {
    if config.None? then None
    else
      var c := config.value;
      Some(c.(actions := c.actions - {id}))
  }

  /** `addAction` writes the defaults under `NewActionId` and keeps every other action. */
  lemma AddActionWrites(config: Option<Config>)
    ensures config.None? ==> AddAction(config) == None
    ensures config.Some? ==>
      var c := config.value;
      var r := AddAction(config).value;
      && r.rest == c.rest
      && r.actions.Keys == c.actions.Keys + {NewActionId(c)}
      && r.actions[NewActionId(c)] == DefaultAction
      && Field(r.actions[NewActionId(c)], "screen") == Some(JStr("1"))
      && forall k :: k in c.actions && k != NewActionId(c) ==> r.actions[k] == c.actions[k]
  {
    if config.Some? {
      PlainPath("screen");
    }
  }

  /**
   * Ids count the actions, so once an action has been removed the next id
   * can be one in use: with only action "2" left, `addAction` picks "2" and
   * the existing action is replaced instead of a new one being added.
   */
  lemma AddActionOverwritesAfterRemoval(x: Obj)
    requires x != DefaultAction
    ensures var c := Config(map["2" := x], map[]);
      && NewActionId(c) == "2"
      && AddAction(Some(c)).value.actions == map["2" := DefaultAction]
      && |AddAction(Some(c)).value.actions| == |c.actions|
  {
    var c := Config(map["2" := x], map[]);
    assert |c.actions| == 1;
    assert NatToString(2) == "2";
    assert c.actions["2" := DefaultAction] == map["2" := DefaultAction];
  }

  /**
   * Whenever the count-based id is already taken, adding an action replaces
   * that action by the default one and the number of actions stays the same.
   */
  lemma AddActionCollides(c: Config)
    requires NewActionId(c) in c.actions
    ensures AddAction(Some(c)).value.actions == c.actions[NewActionId(c) := DefaultAction]
    ensures |AddAction(Some(c)).value.actions| == |c.actions|
    ensures AddAction(Some(c)).value.rest == c.rest
  {
    assert c.actions[NewActionId(c) := DefaultAction].Keys == c.actions.Keys;
  }

  /** The numbers from `n` up whose decimal text is among `keys`. */
  ghost function TakenFrom(keys: set<string>, n: nat): set<string> {
    set k | k in keys && exists m: nat :: m >= n && NatToString(m) == k
  }

  lemma TakenShrinks(keys: set<string>, n: nat)
    requires NatToString(n) in keys
    ensures |TakenFrom(keys, n + 1)| < |TakenFrom(keys, n)|
  {
    NatToStringInjective();
    var before, after := TakenFrom(keys, n), TakenFrom(keys, n + 1);
    assert NatToString(n) in before - after;
    assert after <= before;
    assert before == after + (before - after);
  }

  /** The least number from `n` up whose decimal text is not a key. */
  function FreshFrom(keys: set<string>, n: nat): (m: nat)
    ensures m >= n && NatToString(m) !in keys
    ensures forall j :: n <= j < m ==> NatToString(j) in keys
    decreases |TakenFrom(keys, n)|
  {
    if NatToString(n) !in keys then n
    else
      TakenShrinks(keys, n);
      FreshFrom(keys, n + 1)
  }

  /** The id a new action evidently should get: the count-based id, or the next number up that is still free. */
  function FreshActionId(c: Config): (id: string)
    ensures id !in c.actions
  {
    NatToString(FreshFrom(c.actions.Keys, |c.actions| + 1))
  }

  /** `addAction()` as intended: the default record under an id no action has. */
  function AddActionFresh(config: Option<Config>): Option<Config> {
    if config.None? then None
    else
      var c := config.value;
      Some(c.(actions := c.actions[FreshActionId(c) := DefaultAction]))
  }

  /** The intended `addAction` adds exactly one action and keeps all others; `removeAction` on the new id undoes it. */
  lemma AddActionFreshAdds(config: Option<Config>)
    requires config.Some?
    ensures var c := config.value;
      var r := AddActionFresh(config).value;
      && r.actions.Keys == c.actions.Keys + {FreshActionId(c)}
      && |r.actions| == |c.actions| + 1
      && r.actions[FreshActionId(c)] == DefaultAction
      && (forall k :: k in c.actions ==> r.actions[k] == c.actions[k])
      && RemoveAction(AddActionFresh(config), FreshActionId(c)) == config
  {
    var c := config.value;
    var r := AddActionFresh(config).value;
    assert r.actions - {FreshActionId(c)} == c.actions;
  }

  /** Where the count-based id is free the intended and the written `addAction` agree. */
  lemma AddActionFreshAgrees(config: Option<Config>)
    requires config.Some? && NewActionId(config.value) !in config.value.actions
    ensures AddActionFresh(config) == AddAction(config)
  {}

  /** `removeAction` drops exactly the one key and keeps every other action. */
  lemma RemoveActionDrops(config: Option<Config>, id: string)
    ensures config.None? ==> RemoveAction(config, id) == None
    ensures config.Some? ==>
      var r := RemoveAction(config, id).value;
      && r.rest == config.value.rest
      && r.actions.Keys == config.value.actions.Keys - {id}
      && forall k :: k in r.actions ==> r.actions[k] == config.value.actions[k]
  {}

  // ---- Commands of an action ----

  /** `action.commands || []` where the commands are an array, a false value or absent. */
  function CommandsOf(a: Obj): seq<Json> {
    if "commands" in a && a["commands"].JArr? then a["commands"].items else []
  }

  /** The commands field is an array, a false value (which `|| []` replaces by the empty list), or absent. */
  predicate HasCommandList(a: Obj) {
    "commands" in a ==> a["commands"].JArr? || Falsy(a["commands"])
  }

  function AddCommand(c: Config, id: string): Option<Config> {
    UpdateAction(Some(c), id, "commands", JArr(CommandsOf(ActionIn(c, id)) + [JStr("")]))
  }

  function EditCommand(c: Config, id: string, idx: nat, text: string): Option<Config>
    requires idx < |CommandsOf(ActionIn(c, id))|
  {
    UpdateAction(Some(c), id, "commands", JArr(CommandsOf(ActionIn(c, id))[idx := JStr(text)]))
  }

  function RemoveCommand(c: Config, id: string, idx: nat): Option<Config> {
    UpdateAction(Some(c), id, "commands", JArr(DropIndex(CommandsOf(ActionIn(c, id)), idx)))
  }

  /** Writing a plain field name replaces that field. */
  lemma SetPlainField(a: Obj, field: string, value: Json)
    requires '.' !in field
    ensures SetPath(a, field, value) == a[field := value]
  {}

  /** The commands after `AddCommand`, `EditCommand` or `RemoveCommand`, and every other field kept. */
  lemma SetCommands(c: Config, id: string, cmds: seq<Json>)
    ensures var a := UpdateAction(Some(c), id, "commands", JArr(cmds)).value.actions[id];
      && CommandsOf(a) == cmds
      && forall f :: f in ActionIn(c, id) && f != "commands" ==> f in a && a[f] == ActionIn(c, id)[f]
  {
    assert '.' !in "commands";
    SetPlainField(ActionIn(c, id), "commands", JArr(cmds));
  }

  /** Adding a command appends an empty one to the action's commands. */
  lemma AddCommandAppends(c: Config, id: string)
    requires HasCommandList(ActionIn(c, id))
    ensures CommandsOf(AddCommand(c, id).value.actions[id]) == CommandsOf(ActionIn(c, id)) + [JStr("")]
    ensures forall f :: f in ActionIn(c, id) && f != "commands" ==> AddCommand(c, id).value.actions[id][f] == ActionIn(c, id)[f]
  {
    SetCommands(c, id, CommandsOf(ActionIn(c, id)) + [JStr("")]);
  }

  /** Editing command `idx` replaces that command alone. */
  lemma EditCommandReplaces(c: Config, id: string, idx: nat, text: string)
    requires HasCommandList(ActionIn(c, id)) && idx < |CommandsOf(ActionIn(c, id))|
    ensures CommandsOf(EditCommand(c, id, idx, text).value.actions[id]) == CommandsOf(ActionIn(c, id))[idx := JStr(text)]
    ensures forall f :: f in ActionIn(c, id) && f != "commands" ==> EditCommand(c, id, idx, text).value.actions[id][f] == ActionIn(c, id)[f]
  {
    SetCommands(c, id, CommandsOf(ActionIn(c, id))[idx := JStr(text)]);
  }

  /** Deleting command `idx` removes that command and keeps the others in order; an index out of range deletes nothing. */
  lemma RemoveCommandDrops(c: Config, id: string, idx: nat)
    requires HasCommandList(ActionIn(c, id))
    ensures var cmds := CommandsOf(ActionIn(c, id));
      CommandsOf(RemoveCommand(c, id, idx).value.actions[id]) == if idx < |cmds| then cmds[..idx] + cmds[idx + 1..] else cmds
    ensures forall f :: f in ActionIn(c, id) && f != "commands" ==> RemoveCommand(c, id, idx).value.actions[id][f] == ActionIn(c, id)[f]
  {
    SetCommands(c, id, DropIndex(CommandsOf(ActionIn(c, id)), idx));
    DropIndexRemovesOne(CommandsOf(ActionIn(c, id)), idx);
  }

  // ---- Upload ----

  lemma PrefixHeads(s: string)
    ensures forall p :: StartsWith(s, p) && |p| > 0 ==> s[0] == p[0]
  {}

  /** The media kind an upload is stored as, from the file's MIME type. */
  function DetectType(mime: string): (kind: string)
    ensures kind == "image" <==> StartsWith(mime, "image/")
    ensures kind == "video" <==> StartsWith(mime, "video/")
    ensures kind == "none" <==> !StartsWith(mime, "image/") && !StartsWith(mime, "video/")
  {
    PrefixHeads(mime);
    if StartsWith(mime, "image/") then "image"
    else if StartsWith(mime, "video/") then "video"
    else "none"
  }

  /** The upload endpoint's reply. */
  datatype UploadReply = UploadReply(status: string, url: string)

  /** The path of field `key` inside the action's `play_media` record. */
  function PlayMediaField(key: string): string {
    "play_media" + "." + key
  }

  const MediaPathField := PlayMediaField("media_path")
  const MediaTypeField := PlayMediaField("type")

  /**
   * The upload handler as written: both `updateAction` calls start from the
   * same `config` captured when the handler was created, and the state keeps
   * the last one; so when a type is detected the new `media_path` is lost.
   */
  function UploadAsWritten(config: Option<Config>, id: string, mime: string, reply: UploadReply): Option<Config> {
    if reply.status != "success" then config
    else
      var withPath := UpdateAction(config, id, MediaPathField, JStr(reply.url));
      var withType := UpdateAction(config, id, MediaTypeField, JStr(DetectType(mime)));
      if DetectType(mime) != "none" then withType else withPath
  }

  /** The upload handler as intended: store the URL, then the detected type on top of it. */
  function Upload(config: Option<Config>, id: string, mime: string, reply: UploadReply): Option<Config> {
    if reply.status != "success" then config
    else
      var withPath := UpdateAction(config, id, MediaPathField, JStr(reply.url));
      if DetectType(mime) != "none" then UpdateAction(withPath, id, MediaTypeField, JStr(DetectType(mime)))
      else withPath
  }

  lemma UploadFields()
    ensures '.' in MediaPathField && Head(MediaPathField) == "play_media" && Child(MediaPathField) == "media_path"
    ensures '.' in MediaTypeField && Head(MediaTypeField) == "play_media" && Child(MediaTypeField) == "type"
    ensures !AllDigits("media_path") && !AllDigits("type")
  {
    PathSegments("play_media", "media_path");
    PathSegments("play_media", "type");
    assert !IsDigit("media_path"[0]) && !IsDigit("type"[0]);
  }

  /**
   * As written, an upload whose MIME type is an image or a video leaves
   * `media_path` as it was: an action without one still has none, whatever
   * URL the server returned.
   */
  lemma UploadAsWrittenLosesUrl(config: Option<Config>, id: string, mime: string, reply: UploadReply)
    requires config.Some? && reply.status == "success" && DetectType(mime) != "none"
    ensures var before := ActionIn(config.value, id);
      var after := UploadAsWritten(config, id, mime, reply).value.actions[id];
      && Field(after, MediaPathField) == Field(before, MediaPathField)
      && (before == map[] ==> Field(after, MediaPathField) != Some(JStr(reply.url)))
  {
    UploadFields();
    SetPathSibling(ActionIn(config.value, id), MediaTypeField, JStr(DetectType(mime)), MediaPathField);
  }

  /**
   * A successful upload stores the URL as `media_path` and, when the MIME
   * type is an image or a video, the detected type; otherwise the type is
   * left as it was. A failed upload changes nothing.
   */
  lemma UploadStores(config: Option<Config>, id: string, mime: string, reply: UploadReply)
    requires config.Some?
    ensures reply.status != "success" ==> Upload(config, id, mime, reply) == config
    ensures reply.status == "success" ==>
      var before := ActionIn(config.value, id);
      var after := Upload(config, id, mime, reply).value.actions[id];
      && Field(after, MediaPathField) == Some(JStr(reply.url))
      && (DetectType(mime) != "none" ==> Field(after, MediaTypeField) == Some(JStr(DetectType(mime))))
      && (DetectType(mime) == "none" ==> Field(after, MediaTypeField) == Field(before, MediaTypeField))
      && (forall f :: f in before && f != "play_media" ==> f in after && after[f] == before[f])
      && (forall key :: '.' !in key && key != "media_path" && key != "type" && (!AllDigits(key) || !SpreadsBySequence(before)) ==>
            Field(after, PlayMediaField(key)) == Field(before, PlayMediaField(key)))
    ensures reply.status == "success" ==>
      var r := Upload(config, id, mime, reply).value;
      && r.rest == config.value.rest
      && r.actions.Keys == config.value.actions.Keys + {id}
      && forall k :: k in config.value.actions && k != id ==> r.actions[k] == config.value.actions[k]
  {
    UploadFields();
    if reply.status == "success" {
      var before := ActionIn(config.value, id);
      var withPath := SetPath(before, MediaPathField, JStr(reply.url));
      SetPathSibling(before, MediaPathField, JStr(reply.url), MediaTypeField);
      SetPathKeepsOtherFields(before, MediaPathField, JStr(reply.url));
      if DetectType(mime) != "none" {
        SetPathSibling(withPath, MediaTypeField, JStr(DetectType(mime)), MediaPathField);
        SetPathKeepsOtherFields(withPath, MediaTypeField, JStr(DetectType(mime)));
      }
      forall key | '.' !in key && key != "media_path" && key != "type" && (!AllDigits(key) || !SpreadsBySequence(before)) {
        UploadKeepsKey(config, id, mime, reply, key);
      }
      UploadKeepsOtherActions(config, id, mime, reply);
    }
  }

  /** A successful upload changes only the action under `id`, creating it if missing. */
  lemma UploadKeepsOtherActions(config: Option<Config>, id: string, mime: string, reply: UploadReply)
    requires config.Some? && reply.status == "success"
    ensures var r := Upload(config, id, mime, reply).value;
      && r.rest == config.value.rest
      && r.actions.Keys == config.value.actions.Keys + {id}
      && forall k :: k in config.value.actions && k != id ==> r.actions[k] == config.value.actions[k]
  {
    var withPath := UpdateAction(config, id, MediaPathField, JStr(reply.url));
    UpdateActionFrame(config, id, MediaPathField, JStr(reply.url));
    UpdateActionFrame(withPath, id, MediaTypeField, JStr(DetectType(mime)));
  }

  /** The action's `play_media` is an array or a string, whose spread makes decimal-index keys. */
  predicate SpreadsBySequence(a: Obj) {
    "play_media" in a && (a["play_media"].JArr? || a["play_media"].JStr?)
  }

  /** A successful upload leaves every other field of `play_media` as it was. */
  lemma UploadKeepsKey(config: Option<Config>, id: string, mime: string, reply: UploadReply, key: string)
    requires config.Some? && reply.status == "success"
    requires '.' !in key && key != "media_path" && key != "type"
    requires !AllDigits(key) || !SpreadsBySequence(ActionIn(config.value, id))
    ensures var before := ActionIn(config.value, id);
      Field(Upload(config, id, mime, reply).value.actions[id], PlayMediaField(key)) == Field(before, PlayMediaField(key))
  {
    UploadFields();
    PathSegments("play_media", key);
    var before := ActionIn(config.value, id);
    var withPath := SetPath(before, MediaPathField, JStr(reply.url));
    SetPathSibling(before, MediaPathField, JStr(reply.url), PlayMediaField(key));
    if DetectType(mime) != "none" {
      SetPathSibling(withPath, MediaTypeField, JStr(DetectType(mime)), PlayMediaField(key));
    }
  }

  /** In particular an upload keeps the clip's `max_duration` and `volume`. */
  lemma UploadKeepsPlaybackSettings(config: Option<Config>, id: string, mime: string, reply: UploadReply)
    requires config.Some? && reply.status == "success"
    ensures var before := ActionIn(config.value, id);
      var after := Upload(config, id, mime, reply).value.actions[id];
      && Field(after, PlayMediaField("max_duration")) == Field(before, PlayMediaField("max_duration"))
      && Field(after, PlayMediaField("volume")) == Field(before, PlayMediaField("volume"))
  {
    var d, v := "max_duration", "volume";
    assert !IsDigit(d[0]) && !IsDigit(v[0]);
    assert '.' !in d && '.' !in v;
    UploadKeepsKey(config, id, mime, reply, d);
    UploadKeepsKey(config, id, mime, reply, v);
  }
}
