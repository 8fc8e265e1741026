/**
 * Messages as the automation plugin stores them: the message itself, its
 * in-app payload with buttons, its push payload and its triggers, each with
 * the record it is written to disk as and read back from.
 *
 * The integer raw values of the message type, the in-app style and the
 * button link type belong to the messages library, which is not part of this
 * model; the values used here follow the declaration order of those enums.
 */
module Messages {
  import opened Wrappers
  import opened Clock
  import opened Json
  import opened JsonDates
  import opened HexColor
  import opened Triggers
  import opened MessageTriggers

  datatype MessageType = InAppMessageType | PushType

  function MessageTypeRaw(t: MessageType): int
  {
    match t
    case InAppMessageType => 0
    case PushType => 1
  }

  /** `MessageType(rawValue:) ?? .inAppMessage` */
  function MessageTypeFromRaw(raw: int): (t: MessageType)
    ensures t == PushType <==> raw == 1
  {
    if raw == 1 then PushType else InAppMessageType
  }

  datatype InAppStyle = BannerTop | BannerBottom | Center | FullscreenImage

  function StyleRaw(s: InAppStyle): int
  {
    match s
    case BannerTop => 0
    case BannerBottom => 1
    case Center => 2
    case FullscreenImage => 3
  }

  /** `MBInAppMessageStyle(rawValue:) ?? .bannerTop` */
  function StyleFromRaw(raw: int): (s: InAppStyle)
    ensures 0 <= raw <= 3 ==> StyleRaw(s) == raw
    ensures !(0 <= raw <= 3) ==> s == BannerTop
  {
    if raw == 1 then BannerBottom
    else if raw == 2 then Center
    else if raw == 3 then FullscreenImage
    else BannerTop
  }

  datatype LinkType = Link | InApp

  function LinkTypeRaw(l: LinkType): int
  {
    match l
    case Link => 0
    case InApp => 1
  }

  /** `MBInAppMessageButtonLinkType(rawValue:) ?? .link` */
  function LinkTypeFromRaw(raw: int): (l: LinkType)
    ensures l == InApp <==> raw == 1
  {
    if raw == 1 then InApp else Link
  }

  datatype Button = Button(
    title: Option<string>, titleColor: Option<Rgb>, backgroundColor: Option<Rgb>,
    link: Option<string>, linkType: Option<LinkType>, sectionId: Option<int>, blockId: Option<int>)

  datatype InAppMessage = InAppMessage(
    id: Option<int>, style: Option<InAppStyle>, isBlocking: bool, duration: Option<real>,
    title: Option<string>, titleColor: Option<Rgb>, body: Option<string>, bodyColor: Option<Rgb>,
    image: Option<string>, backgroundColor: Option<Rgb>, buttons: Option<seq<Button>>)

  datatype PushMessage = PushMessage(
    id: string, title: string, body: string, badge: Option<int>, sound: Option<string>,
    launchImage: Option<string>, userInfo: Option<Dict>, sent: bool)

  /**
   * The `triggers` property: nothing, the raw API dictionary not yet parsed,
   * or the parsed trigger set.
   */
  datatype TriggersField = NoTriggers | RawTriggers(raw: Dict) | ParsedTriggers(parsed: TriggerSet)

  datatype Message = Message(
    id: int, title: string, messageDescription: string, messageType: MessageType,
    inAppMessage: Option<InAppMessage>, push: Option<PushMessage>,
    createdAt: Time, startDate: Option<Time>, endDate: Option<Time>,
    automationIsOn: bool, sendAfterDays: int, repeatTimes: int, triggers: TriggersField)

  // ------------------------------------------------------------------ colours

  /** `color.toHexString()`, for a colour that is present. */
  function OptColor(c: Option<Rgb>): (v: Option<JValue>)
    ensures v.Some? <==> c.Some?
    ensures c.Some? ==> v.value == JString(HexString(c.value))
  {
    if c.Some? then Some(JString(HexString(c.value))) else None
  }

  /**
   * `(d[key] as? String).map(UIColor.init(hexString:))`. A string whose
   * scanned value needs more than 32 bits makes the source trap; here it
   * reads as no colour.
   */
  function ColorAt(d: Dict, key: string): Option<Rgb>
  {
    match StringAt(d, key)
    case None => None
    case Some(hex) =>
      match ColorFromHex(hex)
      case None => None
      case Some(c) => Some(c)
  }

  /** A colour written to a record reads back as the same colour. */
  lemma ColorRoundTrip(d: Dict, key: string, c: Option<Rgb>)
    requires c.Some? ==> key in d && d[key] == JString(HexString(c.value))
    requires c.None? ==> key !in d
    ensures ColorAt(d, key) == c
  {
    if c.Some? {
      HexStringRoundTrip(c.value);
    }
  }

  // ----------------------------------------------------------------- buttons

  /** The fields of `MBInAppMessageButton.toJsonDictionary()`: a missing title is written as "", a missing link type as link. */
  function ButtonFields(b: Button): map<string, Option<JValue>>
  {
    map["title" := Some(JString(b.title.GetOr(""))),
        "linkType" := Some(JInt(LinkTypeRaw(b.linkType.GetOr(Link)))),
        "link" := OptString(b.link),
        "titleColor" := OptColor(b.titleColor),
        "backgroundColor" := OptColor(b.backgroundColor),
        "sectionId" := OptInt(b.sectionId),
        "blockId" := OptInt(b.blockId)]
  }

  /** `MBInAppMessageButton.toJsonDictionary()` */
  function ButtonToRecord(b: Button): (d: Dict)
    ensures "title" in d && d["title"] == JString(b.title.GetOr(""))
    ensures "linkType" in d && d["linkType"] == JInt(LinkTypeRaw(b.linkType.GetOr(Link)))
    ensures "link" in d <==> b.link.Some?
  {
    var f := ButtonFields(b);
    RecordRead(f, "title");
    RecordRead(f, "linkType");
    RecordRead(f, "link");
    Record(f)
  }

  /** `MBInAppMessageButton(fromJsonDictionary:)` */
  function ButtonFromRecord(d: Dict): (b: Button)
    ensures b.title == Some(StringAt(d, "title").GetOr(""))
    ensures b.linkType == Some(LinkTypeFromRaw(IntAt(d, "linkType").GetOr(0)))
  {
    Button(Some(StringAt(d, "title").GetOr("")), ColorAt(d, "titleColor"), ColorAt(d, "backgroundColor"),
           StringAt(d, "link"), Some(LinkTypeFromRaw(IntAt(d, "linkType").GetOr(0))),
           IntAt(d, "sectionId"), IntAt(d, "blockId"))
  }

  /** What a button is after a save and a reload: the defaults written for its missing title and link type. */
  function ReloadedButton(b: Button): Button
  {
    b.(title := Some(b.title.GetOr("")), linkType := Some(b.linkType.GetOr(Link)))
  }

  /** The colours of a stored button read back as written. */
  lemma ButtonColorsRoundTrip(b: Button)
    ensures ButtonFromRecord(ButtonToRecord(b)).titleColor == b.titleColor
    ensures ButtonFromRecord(ButtonToRecord(b)).backgroundColor == b.backgroundColor
  {
    var f := ButtonFields(b);
    RecordRead(f, "titleColor");
    RecordRead(f, "backgroundColor");
    ColorRoundTrip(Record(f), "titleColor", b.titleColor);
    ColorRoundTrip(Record(f), "backgroundColor", b.backgroundColor);
  }

  /** The other fields of a stored button read back as written, with the defaults for a missing title and link type. */
  lemma ButtonFieldsRoundTrip(b: Button)
    ensures var r := ButtonFromRecord(ButtonToRecord(b));
      r.title == Some(b.title.GetOr("")) && r.linkType == Some(b.linkType.GetOr(Link)) && r.link == b.link
      && r.sectionId == b.sectionId && r.blockId == b.blockId
  {
    var f := ButtonFields(b);
    RecordRead(f, "title");
    RecordRead(f, "linkType");
    RecordRead(f, "link");
    RecordRead(f, "sectionId");
    RecordRead(f, "blockId");
  }

  lemma ButtonRoundTrip(b: Button)
    ensures ButtonFromRecord(ButtonToRecord(b)) == ReloadedButton(b)
  {
    ButtonColorsRoundTrip(b);
    ButtonFieldsRoundTrip(b);
  }

  function ButtonRecords(bs: seq<Button>): (ds: seq<Dict>)
    ensures |ds| == |bs| && forall i :: 0 <= i < |bs| ==> ds[i] == ButtonToRecord(bs[i])
  {
    seq(|bs|, i requires 0 <= i < |bs| => ButtonToRecord(bs[i]))
  }

  function ButtonsFromRecords(ds: seq<Dict>): (bs: seq<Button>)
    ensures |bs| == |ds| && forall i :: 0 <= i < |ds| ==> bs[i] == ButtonFromRecord(ds[i])
  {
    seq(|ds|, i requires 0 <= i < |ds| => ButtonFromRecord(ds[i]))
  }

  // ------------------------------------------------------------------ in-app

  /**
   * The fields of `MBInAppMessage.toJsonDictionary()`: a missing id is
   * written as "", a missing style as banner-top and a missing duration as 0.
   */
  function InAppFields(m: InAppMessage): map<string, Option<JValue>>
  {
    map["id" := Some(if m.id.Some? then JInt(m.id.value) else JString("")),
        "style" := Some(JInt(StyleRaw(m.style.GetOr(BannerTop)))),
        "isBlocking" := Some(JBool(m.isBlocking)),
        "duration" := Some(JReal(m.duration.GetOr(0.0))),
        "title" := OptString(m.title),
        "titleColor" := OptColor(m.titleColor),
        "body" := OptString(m.body),
        "bodyColor" := OptColor(m.bodyColor),
        "image" := OptString(m.image),
        "backgroundColor" := OptColor(m.backgroundColor),
        "buttons" := if m.buttons.Some? then Some(JArray(Objects(ButtonRecords(m.buttons.value)))) else None]
  }

  /** `MBInAppMessage.toJsonDictionary()` */
  function InAppToRecord(m: InAppMessage): (d: Dict)
    ensures "id" in d && d["id"] == if m.id.Some? then JInt(m.id.value) else JString("")
    ensures "style" in d && d["style"] == JInt(StyleRaw(m.style.GetOr(BannerTop)))
    ensures "duration" in d && d["duration"] == JReal(m.duration.GetOr(0.0))
    ensures "buttons" in d <==> m.buttons.Some?
  {
    var f := InAppFields(m);
    RecordRead(f, "id");
    RecordRead(f, "style");
    RecordRead(f, "duration");
    RecordRead(f, "buttons");
    Record(f)
  }

  /** `MBInAppMessage(fromJsonDictionary:)`: a missing id reads as 0 and a missing duration as -1. */
  function InAppFromRecord(d: Dict): (m: InAppMessage)
    ensures m.id == Some(IntAt(d, "id").GetOr(0))
    ensures m.duration == Some(NumberAt(d, "duration").GetOr(-1.0))
  {
    var buttons := match DictListAt(d, "buttons")
      case None => None
      case Some(ds) => Some(ButtonsFromRecords(ds));
    InAppMessage(Some(IntAt(d, "id").GetOr(0)), Some(StyleFromRaw(IntAt(d, "style").GetOr(0))),
                 BoolAt(d, "isBlocking").GetOr(false), Some(NumberAt(d, "duration").GetOr(-1.0)),
                 StringAt(d, "title"), ColorAt(d, "titleColor"), StringAt(d, "body"), ColorAt(d, "bodyColor"),
                 StringAt(d, "image"), ColorAt(d, "backgroundColor"), buttons)
  }

  /**
   * What an in-app payload is after a save and a reload: a missing id becomes
   * 0 (written as "", which is not an integer), a missing style banner-top and
   * a missing duration 0.
   */
  function ReloadedInApp(m: InAppMessage): InAppMessage
  {
    var buttons := match m.buttons
      case None => None
      case Some(bs) => Some(seq(|bs|, i requires 0 <= i < |bs| => ReloadedButton(bs[i])));
    m.(id := Some(m.id.GetOr(0)), style := Some(m.style.GetOr(BannerTop)),
       duration := Some(m.duration.GetOr(0.0)), buttons := buttons)
  }

  /** The buttons of a stored in-app payload read back as the reloaded buttons. */
  lemma ButtonsRoundTrip(bs: seq<Button>)
    ensures ButtonsFromRecords(ButtonRecords(bs)) == seq(|bs|, i requires 0 <= i < |bs| => ReloadedButton(bs[i]))
  {
    forall i | 0 <= i < |bs|
      ensures ButtonFromRecord(ButtonRecords(bs)[i]) == ReloadedButton(bs[i])
    {
      ButtonRoundTrip(bs[i]);
    }
  }

  /** The colours of a stored in-app payload read back as written. */
  lemma InAppColorsRoundTrip(m: InAppMessage)
    ensures var r := InAppFromRecord(InAppToRecord(m));
      r.titleColor == m.titleColor && r.bodyColor == m.bodyColor && r.backgroundColor == m.backgroundColor
  {
    var f := InAppFields(m);
    RecordRead(f, "titleColor");
    RecordRead(f, "bodyColor");
    RecordRead(f, "backgroundColor");
    ColorRoundTrip(Record(f), "titleColor", m.titleColor);
    ColorRoundTrip(Record(f), "bodyColor", m.bodyColor);
    ColorRoundTrip(Record(f), "backgroundColor", m.backgroundColor);
  }

  /** The id, style, blocking flag and duration of a stored in-app payload read back as after a reload. */
  lemma InAppHeaderRoundTrip(m: InAppMessage)
    ensures var r := InAppFromRecord(InAppToRecord(m));
      r.id == Some(m.id.GetOr(0)) && r.style == Some(m.style.GetOr(BannerTop))
      && r.isBlocking == m.isBlocking && r.duration == Some(m.duration.GetOr(0.0))
  {
    var f := InAppFields(m);
    RecordRead(f, "id");
    RecordRead(f, "style");
    RecordRead(f, "isBlocking");
    RecordRead(f, "duration");
  }

  /** The texts and image of a stored in-app payload read back as written. */
  lemma InAppTextsRoundTrip(m: InAppMessage)
    ensures var r := InAppFromRecord(InAppToRecord(m));
      r.title == m.title && r.body == m.body && r.image == m.image
  {
    var f := InAppFields(m);
    RecordRead(f, "title");
    RecordRead(f, "body");
    RecordRead(f, "image");
  }

  /** The buttons of a stored in-app payload read back as the reloaded buttons. */
  lemma InAppButtonsRoundTrip(m: InAppMessage)
    ensures InAppFromRecord(InAppToRecord(m)).buttons == ReloadedInApp(m).buttons
  {
    var f := InAppFields(m);
    RecordRead(f, "buttons");
    if m.buttons.Some? {
      DictListRoundTrip(Record(f), "buttons", ButtonRecords(m.buttons.value));
      ButtonsRoundTrip(m.buttons.value);
    }
  }

  lemma InAppRoundTrip(m: InAppMessage)
    ensures InAppFromRecord(InAppToRecord(m)) == ReloadedInApp(m)
  {
    InAppHeaderRoundTrip(m);
    InAppTextsRoundTrip(m);
    InAppColorsRoundTrip(m);
    InAppButtonsRoundTrip(m);
  }

  /** A nil duration is written as 0 but a missing duration reads as -1. */
  lemma DurationDefaults(m: InAppMessage, d: Dict)
    requires m.duration.None? && "duration" !in d
    ensures InAppFromRecord(InAppToRecord(m)).duration == Some(0.0)
    ensures InAppFromRecord(d).duration == Some(-1.0)
  {
  }

  // -------------------------------------------------------------------- push

  /** The fields of `MBPushMessage.toJsonDictionary()`: the sent flag is written under "sent". */
  function PushFields(p: PushMessage): map<string, Option<JValue>>
  {
    map["id" := Some(JString(p.id)),
        "title" := Some(JString(p.title)),
        "body" := Some(JString(p.body)),
        "sent" := Some(JBool(p.sent)),
        "badge" := OptInt(p.badge),
        "sound" := OptString(p.sound),
        "launchImage" := OptString(p.launchImage),
        "userInfo" := OptDict(p.userInfo)]
  }

  /** `MBPushMessage.toJsonDictionary()` */
  function PushToRecord(p: PushMessage): (d: Dict)
    ensures "sent" in d && d["sent"] == JBool(p.sent)
    ensures "sentt" !in d
  {
    var f := PushFields(p);
    RecordRead(f, "sent");
    RecordRead(f, "sentt");
    Record(f)
  }

  /** `MBPushMessage(fromJsonDictionary:)`: the sent flag is read from "sentt". */
  function PushFromRecord(d: Dict): (p: PushMessage)
    ensures p.sent == BoolAt(d, "sentt").GetOr(false)
  {
    PushMessage(StringAt(d, "id").GetOr(""), StringAt(d, "title").GetOr(""), StringAt(d, "body").GetOr(""),
                IntAt(d, "badge"), StringAt(d, "sound"), StringAt(d, "launchImage"), DictAt(d, "userInfo"),
                BoolAt(d, "sentt").GetOr(false))
  }

  /** A stored push payload reads back with every field except `sent`, which is always false. */
  lemma PushRoundTrip(p: PushMessage)
    ensures PushFromRecord(PushToRecord(p)) == p.(sent := false)
  {
    var f := PushFields(p);
    RecordRead(f, "id");
    RecordRead(f, "title");
    RecordRead(f, "body");
    RecordRead(f, "badge");
    RecordRead(f, "sound");
    RecordRead(f, "launchImage");
    RecordRead(f, "userInfo");
    RecordRead(f, "sentt");
  }

  // ----------------------------------------------------------------- message

  /** The stored form of an optional in-app payload. */
  function InAppValue(x: Option<InAppMessage>): (v: Option<JValue>)
    ensures v.Some? <==> x.Some?
  {
    match x
    case None => None
    case Some(a) => Some(JObject(InAppToRecord(a)))
  }

  /** The stored form of an optional push payload. */
  function PushValue(x: Option<PushMessage>): (v: Option<JValue>)
    ensures v.Some? <==> x.Some?
  {
    match x
    case None => None
    case Some(p) => Some(JObject(PushToRecord(p)))
  }

  /** The stored form of a message's triggers: only parsed triggers are written. */
  function TriggersValue(f: TriggersField): (v: Option<JValue>)
    ensures v.Some? <==> f.ParsedTriggers?
  {
    match f
    case ParsedTriggers(t) => Some(JObject(TriggerSetToRecord(t)))
    case _ => None
  }

  /** `(d["inAppMessage"] as? [String: Any]).map(MBInAppMessage.init(fromJsonDictionary:))` */
  function InAppAt(d: Dict): (x: Option<InAppMessage>)
    ensures x.Some? <==> DictAt(d, "inAppMessage").Some?
  {
    match DictAt(d, "inAppMessage")
    case None => None
    case Some(r) => Some(InAppFromRecord(r))
  }

  /** `(d["push"] as? [String: Any]).map(MBPushMessage.init(fromJsonDictionary:))` */
  function PushAt(d: Dict): (x: Option<PushMessage>)
    ensures x.Some? <==> DictAt(d, "push").Some?
  {
    match DictAt(d, "push")
    case None => None
    case Some(r) => Some(PushFromRecord(r))
  }

  /** The triggers of a stored message: parsed when the key holds a dictionary, none otherwise. */
  function TriggersAt(d: Dict): (f: TriggersField)
    ensures f.ParsedTriggers? <==> DictAt(d, "triggers").Some?
    ensures !f.RawTriggers?
  {
    match DictAt(d, "triggers")
    case None => NoTriggers
    case Some(t) => ParsedTriggers(TriggerSetFromRecord(t))
  }

  /** The fields of `MBMessage.toJsonDictionary()`: raw triggers are not written. */
  function MessageFields(m: Message): map<string, Option<JValue>>
  {
    map["id" := Some(JInt(m.id)),
        "title" := Some(JString(m.title)),
        "messageDescription" := Some(JString(m.messageDescription)),
        "type" := Some(JInt(MessageTypeRaw(m.messageType))),
        "createdAt" := Some(DateValue(m.createdAt)),
        "sendAfterDays" := Some(JInt(m.sendAfterDays)),
        "repeatTimes" := Some(JInt(m.repeatTimes)),
        "automationIsOn" := Some(JBool(m.automationIsOn)),
        "startDate" := OptDate(m.startDate),
        "endDate" := OptDate(m.endDate),
        "inAppMessage" := InAppValue(m.inAppMessage),
        "push" := PushValue(m.push),
        "triggers" := TriggersValue(m.triggers)]
  }

  /** `MBMessage.toJsonDictionary()` */
  function MessageToRecord(m: Message): (d: Dict)
    ensures "id" in d && "type" in d && "createdAt" in d
  {
    var f := MessageFields(m);
    RecordRead(f, "id");
    RecordRead(f, "type");
    RecordRead(f, "createdAt");
    Record(f)
  }

  /** The record of a message holds its id, title and type. */
  lemma IdentityWritten(m: Message)
    ensures var d := MessageToRecord(m);
      "id" in d && d["id"] == JInt(m.id)
      && "title" in d && d["title"] == JString(m.title)
      && "type" in d && d["type"] == JInt(MessageTypeRaw(m.messageType))
  {
    var f := MessageFields(m);
    RecordRead(f, "id");
    RecordRead(f, "title");
    RecordRead(f, "type");
  }

  /** The record of a message holds its description and automation flag. */
  lemma DescriptionWritten(m: Message)
    ensures var d := MessageToRecord(m);
      "messageDescription" in d && d["messageDescription"] == JString(m.messageDescription)
      && "automationIsOn" in d && d["automationIsOn"] == JBool(m.automationIsOn)
  {
    var f := MessageFields(m);
    RecordRead(f, "messageDescription");
    RecordRead(f, "automationIsOn");
  }

  /** The record of a message holds its dates and counters, the optional dates only when present. */
  lemma ScheduleWritten(m: Message)
    ensures var d := MessageToRecord(m);
      "createdAt" in d && d["createdAt"] == DateValue(m.createdAt)
      && "sendAfterDays" in d && d["sendAfterDays"] == JInt(m.sendAfterDays)
      && "repeatTimes" in d && d["repeatTimes"] == JInt(m.repeatTimes)
      && Holds(d, "startDate", OptDate(m.startDate)) && Holds(d, "endDate", OptDate(m.endDate))
  {
    var f := MessageFields(m);
    RecordRead(f, "createdAt");
    RecordRead(f, "sendAfterDays");
    RecordRead(f, "repeatTimes");
    RecordRead(f, "startDate");
    RecordRead(f, "endDate");
  }

  /** The record of a message holds its payloads and parsed triggers, each only when present. */
  lemma PayloadsWritten(m: Message)
    ensures var d := MessageToRecord(m);
      Holds(d, "inAppMessage", InAppValue(m.inAppMessage)) && Holds(d, "push", PushValue(m.push))
      && Holds(d, "triggers", TriggersValue(m.triggers))
  {
    var f := MessageFields(m);
    RecordRead(f, "inAppMessage");
    RecordRead(f, "push");
    RecordRead(f, "triggers");
  }

  /** `MBMessage(fromJsonDictionary:)`: missing fields read as 0, "" or false, and an unknown type as in-app. */
  function MessageFromRecord(d: Dict): (m: Message)
    ensures m.id == IntAt(d, "id").GetOr(0) && m.title == StringAt(d, "title").GetOr("")
    ensures m.messageType == MessageTypeFromRaw(IntAt(d, "type").GetOr(0))
    ensures m.automationIsOn == BoolAt(d, "automationIsOn").GetOr(false)
    ensures m.inAppMessage.Some? <==> DictAt(d, "inAppMessage").Some?
    ensures m.push.Some? <==> DictAt(d, "push").Some?
    ensures m.triggers.ParsedTriggers? <==> DictAt(d, "triggers").Some?
    ensures !m.triggers.RawTriggers?
  {
    Message(IntAt(d, "id").GetOr(0), StringAt(d, "title").GetOr(""),
            StringAt(d, "messageDescription").GetOr(""), MessageTypeFromRaw(IntAt(d, "type").GetOr(0)),
            InAppAt(d), PushAt(d),
            DateFromSeconds(NumberAt(d, "createdAt").GetOr(0.0)),
            DateAt(d, "startDate"), DateAt(d, "endDate"),
            BoolAt(d, "automationIsOn").GetOr(false),
            IntAt(d, "sendAfterDays").GetOr(0), IntAt(d, "repeatTimes").GetOr(0),
            TriggersAt(d))
  }

  /** The triggers of a message can be stored: every parsed trigger is one a factory builds. */
  predicate StorableTriggers(f: TriggersField)
  {
    f.ParsedTriggers? ==> forall i :: 0 <= i < |f.parsed.triggers| ==> WellFormed(f.parsed.triggers[i])
  }

  /**
   * What a message is after a save and a reload: raw triggers are lost, the
   * push payload is no longer sent, and the in-app payload gets its defaults.
   */
  function Reloaded(m: Message): Message
  {
    m.(inAppMessage := m.inAppMessage.Map(ReloadedInApp),
       push := m.push.Map((p: PushMessage) => p.(sent := false)),
       triggers := if m.triggers.RawTriggers? then NoTriggers else m.triggers)
  }

  /** The identifying fields of a message read back from any record that holds them. */
  lemma HeaderRead(m: Message, d: Dict)
    requires "id" in d && d["id"] == JInt(m.id)
    requires "title" in d && d["title"] == JString(m.title)
    requires "messageDescription" in d && d["messageDescription"] == JString(m.messageDescription)
    requires "type" in d && d["type"] == JInt(MessageTypeRaw(m.messageType))
    requires "automationIsOn" in d && d["automationIsOn"] == JBool(m.automationIsOn)
    ensures var r := MessageFromRecord(d);
      r.id == m.id && r.title == m.title && r.messageDescription == m.messageDescription
      && r.messageType == m.messageType && r.automationIsOn == m.automationIsOn
  {
  }

  /** The dates and counters of a message read back from any record that holds them. */
  lemma ScheduleRead(m: Message, d: Dict)
    requires "createdAt" in d && d["createdAt"] == DateValue(m.createdAt)
    requires "sendAfterDays" in d && d["sendAfterDays"] == JInt(m.sendAfterDays)
    requires "repeatTimes" in d && d["repeatTimes"] == JInt(m.repeatTimes)
    requires Holds(d, "startDate", OptDate(m.startDate))
    requires Holds(d, "endDate", OptDate(m.endDate))
    ensures var r := MessageFromRecord(d);
      r.createdAt == m.createdAt && r.startDate == m.startDate && r.endDate == m.endDate
      && r.sendAfterDays == m.sendAfterDays && r.repeatTimes == m.repeatTimes
  {
    DateSecondsRoundTrip(m.createdAt);
  }

  /** The payloads of a message read back, as after a reload, from any record that holds them. */
  lemma PayloadsRead(m: Message, d: Dict)
    requires StorableTriggers(m.triggers)
    requires Holds(d, "inAppMessage", InAppValue(m.inAppMessage))
    requires Holds(d, "push", PushValue(m.push))
    requires Holds(d, "triggers", TriggersValue(m.triggers))
    ensures var r := MessageFromRecord(d);
      var n := Reloaded(m);
      r.inAppMessage == n.inAppMessage && r.push == n.push && r.triggers == n.triggers
  {
    if m.inAppMessage.Some? {
      InAppRoundTrip(m.inAppMessage.value);
    }
    if m.push.Some? {
      PushRoundTrip(m.push.value);
    }
    if m.triggers.ParsedTriggers? {
      TriggerSetRoundTrip(m.triggers.parsed);
    }
  }

  /**
   * A stored message reads back as `Reloaded(m)`: id, title, description,
   * type, dates, send-after days, repeat count, automation flag and parsed
   * triggers are kept.
   */
  lemma MessageRoundTrip(m: Message)
    requires StorableTriggers(m.triggers)
    ensures MessageFromRecord(MessageToRecord(m)) == Reloaded(m)
  {
    var d := MessageToRecord(m);
    IdentityWritten(m);
    DescriptionWritten(m);
    ScheduleWritten(m);
    PayloadsWritten(m);
    HeaderRead(m, d);
    ScheduleRead(m, d);
    PayloadsRead(m, d);
  }

  /** After a reload a push payload is never marked sent, because the flag is read from a key never written. */
  lemma SentNotRestored(m: Message)
    requires m.push.Some? && m.push.value.sent
    ensures MessageFromRecord(MessageToRecord(m)).push.Some?
    ensures !MessageFromRecord(MessageToRecord(m)).push.value.sent
  {
    PayloadsWritten(m);
    assert DictAt(MessageToRecord(m), "push") == Some(PushToRecord(m.push.value));
  }
}
