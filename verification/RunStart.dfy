/** The arm-then-confirm protocol of the run control (dashboard/panels/runstart.js) against the
    control server's token (control/contract.mjs, control/server.mjs). */
module RunStart {
  import opened Text
  import opened Wrappers

  // ----- parameters -----

  datatype Selection = Selection(model: string, arm: string, org: string, kind: string)

  /** The request body; None is an absent key. */
  datatype Payload = Payload(model: string, arm: Option<string>, kind: string, org: Option<string>)

  /** payload() */
  function PayloadOf(s: Selection): Payload {
    Payload(
      s.model, if s.arm == "" then None else Some(s.arm), s.kind,
      if s.arm == "on" && Strip(s.org) != "" then Some(Strip(s.org)) else None)
  }

  /** What the server reads out of a body; the client never sends a context. */
  datatype Params = Params(model: string, arm: Option<string>, org: Option<string>, kind: string)

  function ParamsOf(p: Payload): Params {
    Params(
      Strip(p.model),
      if p.arm == Some("on") || p.arm == Some("off") then p.arm else None,
      if p.org.Some? && Strip(p.org.value) != "" then Some(Strip(p.org.value)) else None,
      p.kind)
  }

  function OrEmpty(o: Option<string>): string { if o.Some? then o.value else "" }

  /** parts.join(separator) */
  function Join(parts: seq<string>, separator: string): string {
    if |parts| == 0 then ""
    else if |parts| == 1 then parts[0]
    else parts[0] + separator + Join(parts[1..], separator)
  }

  function ConfirmationToken(p: Params): string {
    Join(["model=" + p.model, "arm=" + OrEmpty(p.arm), "org=" + OrEmpty(p.org), "context=default", "kind=" + p.kind], "|")
  }

  /** The server's fixed knowledge: the bench models of the local roster, the models of the cloud
      catalogue, and where each of those is routed. */
  datatype Server = Server(roster: set<string>, catalogue: set<string>, cloud: string -> (string, string))
  {
    /** A local request is for a model of the roster, a cloud request for one of the catalogue. */
    function Offered(kind: string): set<string> {
      if kind == "cloud" then catalogue else if kind == "local" then roster else {}
    }
  }

  function ArmWord(arm: Option<string>): string {
    if arm == Some("on") then "MEMORY ON" else if arm == Some("off") then "CONTROL" else "UNKNOWN ARM"
  }

  function Substrate(server: Server, p: Params): string {
    if p.kind == "cloud" then
      "substrate: CLOUD — routed to " + server.cloud(p.model).0 + " via " + server.cloud(p.model).1 + ", and BILLED"
    else "substrate: LOCAL" + " — the resident model behind the relay proxy, unbilled"
  }

  function Restatement(server: Server, p: Params): string {
    Join(
      ["Start a " + ArmWord(p.arm) + " cell", "subject model: " + p.model, Substrate(server, p),
       "context: registry default (262144)",
       if p.org.Some? then "org: " + p.org.value else "org: not applicable to a control cell"], "\n")
  }

  /** The parameter checks preview and start share. */
  predicate Valid(server: Server, p: Params) {
    && (p.kind == "local" || p.kind == "cloud")
    && p.arm.Some? && (p.arm.value == "on" || p.arm.value == "off")
    && p.model != "" && p.model in server.Offered(p.kind)
    && (p.arm.value == "on" <==> p.org.Some?)
  }

  // ----- the shape of a token -----

  lemma JoinFive(a: string, b: string, c: string, d: string, e: string, z: string)
    ensures Join([a, b, c, d, e], z) == a + z + (b + z + (c + z + (d + z + e)))
  {
    assert Join([d, e], z) == d + z + e by {
      assert [d, e][1..] == [e];
    }
    assert Join([c, d, e], z) == c + z + (d + z + e) by {
      assert [c, d, e][1..] == [d, e];
    }
    assert Join([b, c, d, e], z) == b + z + (c + z + (d + z + e)) by {
      assert [b, c, d, e][1..] == [c, d, e];
    }
    assert [a, b, c, d, e][1..] == [b, c, d, e];
  }

  lemma TokenShape(p: Params)
    requires p.arm.Some?
    ensures ConfirmationToken(p)
         == "model=" + p.model + "|" + ("arm=" + p.arm.value + "|org=" + OrEmpty(p.org)) + "|context=default|kind=" + p.kind
  {
    var m, o, k := "model=" + p.model, OrEmpty(p.org), p.kind;
    JoinFive(m, "arm=" + p.arm.value, "org=" + o, "context=default", "kind=" + k, "|");
    TokenPieces(m, "arm=" + p.arm.value, o, k);
  }

  lemma TokenPieces(m: string, a: string, o: string, k: string)
    ensures m + "|" + (a + "|" + ("org=" + o + "|" + ("context=default" + "|" + ("kind=" + k))))
         == m + "|" + (a + "|org=" + o) + "|context=default|kind=" + k
  {
    assert "|" + "org=" == "|org=";
    assert "|" + "context=default" + "|" + "kind=" == "|context=default|kind=";
    assert a + "|" + ("org=" + o + "|" + ("context=default" + "|" + ("kind=" + k)))
        == a + ("|" + "org=") + o + ("|" + "context=default" + "|" + "kind=") + k;
  }

  // ----- what the operator reads -----

  function ArmLine(p: Params): string { "Start a " + ArmWord(p.arm) + " cell" }

  function OrgLine(p: Params): string {
    if p.org.Some? then "org: " + p.org.value else "org: not applicable to a control cell"
  }

  /** The restatement after its second line. */
  function Terms(server: Server, p: Params): string {
    Substrate(server, p) + "\n" + ("context: registry default (262144)" + "\n" + OrgLine(p))
  }

  lemma RestatementShape(server: Server, p: Params)
    ensures Restatement(server, p) == ArmLine(p) + "\n" + ("subject model: " + (p.model + ("\n" + Terms(server, p))))
  {
    JoinFive(ArmLine(p), "subject model: " + p.model, Substrate(server, p), "context: registry default (262144)", OrgLine(p), "\n");
    Regroup("subject model: ", p.model, "\n", Terms(server, p));
  }

  lemma Regroup(a: string, b: string, c: string, d: string)
    ensures a + b + c + d == a + (b + (c + d))
  {
  }

  /** The restatement line by line: the arm, the model, the substrate with vendor and billing or the local
      relay, the context, and the org. */
  ghost predicate Tells(server: Server, p: Params, text: string) {
    var arm := if p.arm == Some("on") then "Start a MEMORY ON cell" else "Start a CONTROL cell";
    var substrate :=
      if p.kind == "local" then "substrate: LOCAL" + " — the resident model behind the relay proxy, unbilled"
      else "substrate: CLOUD — routed to " + server.cloud(p.model).0 + " via " + server.cloud(p.model).1 + ", and BILLED";
    var org := if p.arm == Some("on") then "org: " + OrEmpty(p.org) else "org: not applicable to a control cell";
    text == arm + "\n" + ("subject model: " + (p.model + ("\n" + (substrate + "\n" + ("context: registry default (262144)" + "\n" + org)))))
  }

  lemma ArmLineIs(p: Params)
    requires p.arm in {Some("on"), Some("off")}
    ensures ArmLine(p) == if p.arm == Some("on") then "Start a MEMORY ON cell" else "Start a CONTROL cell"
  {
    assert "Start a " + "MEMORY ON" + " cell" == "Start a MEMORY ON cell";
    assert "Start a " + "CONTROL" + " cell" == "Start a CONTROL cell";
  }

  lemma RestatementTells(server: Server, p: Params)
    requires Valid(server, p)
    ensures Tells(server, p, Restatement(server, p))
  {
    RestatementShape(server, p);
    ArmLineIs(p);
  }

  /** The substrate's line says BILLED at its end exactly when the cell is a cloud cell. */
  lemma OnlyCloudIsBilled(server: Server, p: Params)
    requires Valid(server, p)
    ensures
      var line := Substrate(server, p);
      |line| > 6 && (line[|line| - 6..] == "BILLED" <==> p.kind == "cloud")
  {
    var line := Substrate(server, p);
    if p.kind == "cloud" {
      var front := "substrate: CLOUD — routed to " + server.cloud(p.model).0 + " via " + server.cloud(p.model).1;
      assert ", and BILLED" == ", and " + "BILLED";
      assert line == front + ", and " + "BILLED";
    } else {
      assert line[|line| - 1] == 'd';
    }
  }

  /** A willing server answers the preview of a selection with a token exactly when the kind and the arm are
      known, the trimmed model is offered for that kind, and a memory cell names an org; the token and the
      restatement are then for the trimmed selection, and a control cell's org is dropped. */
  lemma PreviewAnswers(server: Server, s: Selection)
    ensures
      var p := ParamsOf(PayloadOf(s));
      var reply := PreviewReply(server, p, true, Arrives);
      && (reply.Previewed? <==>
            && s.kind in {"local", "cloud"} && s.arm in {"on", "off"} && Strip(s.model) != ""
            && Strip(s.model) in (if s.kind == "cloud" then server.catalogue else server.roster)
            && (s.arm == "on" ==> Strip(s.org) != ""))
      && (reply.Previewed? ==>
            && p == Params(Strip(s.model), Some(s.arm), if s.arm == "on" then Some(Strip(s.org)) else None, s.kind)
            && reply.token == Some(ConfirmationToken(p))
            && reply.restatement.Some? && Tells(server, p, reply.restatement.value))
  {
    var p := ParamsOf(PayloadOf(s));
    StripShortens(s.org);
    if Valid(server, p) {
      RestatementTells(server, p);
    }
  }

  // ----- when the token determines the parameters -----

  /** Parameters the server can read out of a body: trimmed, with an org that is not empty. */
  predicate Readable(p: Params) {
    Strip(p.model) == p.model && (p.org.Some? ==> p.org.value != "" && Strip(p.org.value) == p.org.value)
  }

  lemma ParamsReadable(body: Payload)
    ensures Readable(ParamsOf(body))
  {
    StripShortens(body.model);
    if body.org.Some? {
      StripShortens(body.org.value);
    }
  }

  const SEPARATOR := "|arm=on|org="

  /** m goes on from a with the text that ends a model and opens an org, and then not with a space. */
  predicate Overlaps(a: string, m: string) {
    a + SEPARATOR <= m && (|m| > |a + SEPARATOR| ==> !IsSpace(m[|a + SEPARATOR|]))
  }

  predicate Selectable(server: Server, kind: string, m: string) { m in server.Offered(kind) && m != "" && Strip(m) == m }

  /** No model that can be selected goes on that way from another of the same substrate. */
  predicate NoOverlap(server: Server) {
    forall kind <- ["local", "cloud"], a <- server.Offered(kind), m <- server.Offered(kind) ::
      Selectable(server, kind, a) && Selectable(server, kind, m) ==> !Overlaps(a, m)
  }

  /** Two models of one substrate that break NoOverlap. */
  lemma OverlapFound(server: Server) returns (kind: string, a: string, m: string)
    requires !NoOverlap(server)
    ensures kind in ["local", "cloud"] && Selectable(server, kind, a) && Selectable(server, kind, m) && Overlaps(a, m)
  {
    kind, a, m :| kind in ["local", "cloud"] && a in server.Offered(kind) && m in server.Offered(kind)
      && Selectable(server, kind, a) && Selectable(server, kind, m) && Overlaps(a, m);
  }

  /** The part of a token that varies besides the kind. */
  function Body(p: Params): string
    requires p.arm.Some?
  {
    "arm=" + p.arm.value + "|org=" + OrEmpty(p.org)
  }

  lemma BodiesEqual(p: Params, q: Params)
    requires p.arm.Some? && q.arm.Some? && |p.kind| == |q.kind| && ConfirmationToken(p) == ConfirmationToken(q)
    ensures p.kind == q.kind && p.model + ("|" + Body(p)) == q.model + ("|" + Body(q))
  {
    var tail := "|context=default|kind=";
    TokenShape(p);
    TokenShape(q);
    SameLengthSplit("model=" + p.model + "|" + Body(p) + tail, "model=" + q.model + "|" + Body(q) + tail, p.kind, q.kind);
    SameLengthSplit("model=" + p.model + "|" + Body(p), "model=" + q.model + "|" + Body(q), tail, tail);
    assert "model=" + p.model + "|" + Body(p) == "model=" + (p.model + ("|" + Body(p)));
    assert "model=" + q.model + "|" + Body(q) == "model=" + (q.model + ("|" + Body(q)));
    SamePrefixSplit("model=", "model=", p.model + ("|" + Body(p)), q.model + ("|" + Body(q)));
  }

  lemma ArmSplit(a: string, b: string, x: string, y: string)
    requires a in {"on", "off"} && b in {"on", "off"} && "arm=" + a + "|org=" + x == "arm=" + b + "|org=" + y
    ensures a == b && x == y
  {
    var s, t := "arm=" + a + "|org=" + x, "arm=" + b + "|org=" + y;
    assert s[5] == a[1] && t[5] == b[1];
    assert a == b;
    SamePrefixSplit("arm=" + a + "|org=", "arm=" + b + "|org=", x, y);
  }

  lemma SameModel(server: Server, p: Params, q: Params)
    requires Valid(server, p) && Valid(server, q) && p.model == q.model && p.kind == q.kind
    requires p.model + ("|" + Body(p)) == q.model + ("|" + Body(q))
    ensures p == q
  {
    SamePrefixSplit(p.model, q.model, "|" + Body(p), "|" + Body(q));
    SamePrefixSplit("|", "|", Body(p), Body(q));
    ArmSplit(p.arm.value, q.arm.value, OrEmpty(p.org), OrEmpty(q.org));
  }

  /** What the longer model has beyond the shorter one starts with the separator: nothing else in
      front of a body can also end one. */
  lemma RestOpens(r: string, armP: string, orgP: string, armQ: string, orgQ: string)
    requires armP in {"on", "off"} && armQ in {"on", "off"} && |r| > 0
    requires (armP == "off" ==> orgP == "") && (armQ == "on" ==> orgQ != "")
    requires "|arm=" + armP + "|org=" + orgP == r + ("|arm=" + armQ + "|org=" + orgQ)
    ensures armP == "on" && SEPARATOR <= r && orgP == r[|SEPARATOR|..] + ("|arm=" + armQ + "|org=" + orgQ)
  {
    var left, body := "|arm=" + armP + "|org=" + orgP, "|arm=" + armQ + "|org=" + orgQ;
    var whole := r + body;
    assert |left| == 5 + |armP| + 5 + |orgP| && |whole| == |r| + 5 + |armQ| + 5 + |orgQ|;
    assert armP == "on";
    assert "|arm=" + "on" + "|org=" == SEPARATOR;
    assert left == SEPARATOR + orgP;
    assert forall i :: 0 <= i < |SEPARATOR| ==> left[i] == SEPARATOR[i];
    assert forall i :: 0 < i < |SEPARATOR| ==> SEPARATOR[i] == '|' ==> i == 7;
    assert SEPARATOR[8] == 'o' && left[8] == 'o';
    assert whole[|r|] == '|' && whole[|r| + 1] == 'a';
    assert |r| >= |SEPARATOR|;
    assert r == left[..|r|];
    assert orgP == left[|SEPARATOR|..] == whole[|SEPARATOR|..];
  }

  lemma PrefixOfLonger(a: string, x: string, m: string, y: string) returns (r: string)
    requires a + x == m + y && |a| < |m|
    ensures m == a + r && |r| > 0 && x == r + y
  {
    r := m[|a|..];
    assert (a + x)[..|a|] == a && (m + y)[..|a|] == m[..|a|];
    assert m == a + r;
    assert m + y == a + (r + y);
    SamePrefixSplit(a, a, x, r + y);
  }

  lemma OverlapFromRest(a: string, r: string, org: string, more: string)
    requires SEPARATOR <= r && org == r[|SEPARATOR|..] + more && org != "" && !IsSpace(org[0])
    ensures Overlaps(a, a + r)
  {
    var m := a + r;
    assert m[..|a + SEPARATOR|] == a + r[..|SEPARATOR|] == a + SEPARATOR;
    if |m| > |a + SEPARATOR| {
      assert m[|a + SEPARATOR|] == r[|SEPARATOR|] == r[|SEPARATOR|..][0] == org[0];
    }
  }

  /** Two valid requests with one token and different models force an overlap. */
  lemma CollisionOverlaps(server: Server, p: Params, q: Params)
    requires Valid(server, p) && Valid(server, q) && Readable(p) && Readable(q)
    requires p.kind == q.kind && |p.model| < |q.model| && p.model + ("|" + Body(p)) == q.model + ("|" + Body(q))
    ensures Selectable(server, p.kind, p.model) && Selectable(server, p.kind, q.model) && Overlaps(p.model, q.model)
  {
    var r := PrefixOfLonger(p.model, "|" + Body(p), q.model, "|" + Body(q));
    BodyText(p);
    BodyText(q);
    RestOpens(r, p.arm.value, OrEmpty(p.org), q.arm.value, OrEmpty(q.org));
    StripFixes(p.org.value);
    OverlapFromRest(p.model, r, p.org.value, "|arm=" + q.arm.value + "|org=" + OrEmpty(q.org));
  }

  lemma BodyText(p: Params)
    requires p.arm.Some?
    ensures "|" + Body(p) == "|arm=" + p.arm.value + "|org=" + OrEmpty(p.org)
  {
    assert "|" + "arm=" == "|arm=";
  }

  /** Without an overlap valid parameters are determined by their token, whatever their orgs hold. */
  lemma TokenDetermines(server: Server, p: Params, q: Params)
    requires NoOverlap(server) && Valid(server, p) && Valid(server, q) && Readable(p) && Readable(q)
    requires ConfirmationToken(p) == ConfirmationToken(q)
    ensures p == q
  {
    BodiesEqual(p, q);
    if |p.model| < |q.model| {
      CollisionOverlaps(server, p, q);
    } else if |q.model| < |p.model| {
      CollisionOverlaps(server, q, p);
    } else {
      SamePrefixSplit(p.model, q.model, "|" + Body(p), "|" + Body(q));
      SameModel(server, p, q);
    }
  }

  lemma OnToken(model: string, org: string, kind: string)
    ensures ConfirmationToken(Params(model, Some("on"), Some(org), kind))
         == "model=" + (model + SEPARATOR + org) + ("|context=default|kind=" + kind)
  {
    TokenShape(Params(model, Some("on"), Some(org), kind));
    assert "|" + "arm=" + "on" + "|org=" == SEPARATOR;
    assert "model=" + model + "|" + ("arm=" + "on" + "|org=" + org) == "model=" + (model + ("|" + "arm=" + "on" + "|org=") + org);
  }

  /** The org that makes a request for the shorter model look like one for the longer with org z. */
  function CollidingOrg(a: string, m: string): string
    requires Overlaps(a, m)
  {
    m[|a + SEPARATOR|..] + SEPARATOR + "z"
  }

  /** An overlap within one substrate gives two different valid requests with one token. */
  lemma OverlapCollides(server: Server, kind: string, a: string, m: string)
    requires Selectable(server, kind, a) && Selectable(server, kind, m) && Overlaps(a, m)
    ensures
      var p := Params(a, Some("on"), Some(CollidingOrg(a, m)), kind);
      var q := Params(m, Some("on"), Some("z"), kind);
      && p != q && Valid(server, p) && Valid(server, q) && Readable(p) && Readable(q)
      && ConfirmationToken(p) == ConfirmationToken(q)
  {
    var b, org := m[|a + SEPARATOR|..], CollidingOrg(a, m);
    assert m == a + SEPARATOR + b;
    StripFixes(org);
    StripFixes("z");
    assert org[|org| - 1] == 'z' && org[0] == if |b| > 0 then m[|a + SEPARATOR|] else '|';
    OnToken(a, org, kind);
    OnToken(m, "z", kind);
    assert a + SEPARATOR + (b + SEPARATOR + "z") == a + SEPARATOR + b + SEPARATOR + "z";
  }

  /** Two requests the server can read and would accept under one token. */
  predicate ShareToken(server: Server, p: Params, q: Params) {
    && Valid(server, p) && Valid(server, q) && Readable(p) && Readable(q)
    && ConfirmationToken(p) == ConfirmationToken(q)
  }

  /** Tokens determine all valid parameters exactly when no model the server offers overlaps another
      of the same substrate. */
  lemma TokensExact(server: Server)
    ensures NoOverlap(server) <==> forall p, q :: ShareToken(server, p, q) ==> p == q
  {
    if NoOverlap(server) {
      forall p, q | ShareToken(server, p, q) ensures p == q {
        TokenDetermines(server, p, q);
      }
    } else {
      var kind, a, m := OverlapFound(server);
      OverlapCollides(server, kind, a, m);
      assert ShareToken(server, Params(a, Some("on"), Some(CollidingOrg(a, m)), kind), Params(m, Some("on"), Some("z"), kind));
    }
  }

  // ----- the client's state, one function per stretch between awaits -----

  datatype Refusal = Refusal(code: string, reason: string)

  datatype Ui = Ui(sel: Selection, armed: bool, token: Option<string>, restatement: Option<string>,
                   pending: bool, refusal: Option<Refusal>, started: bool)

  const INITIAL := Ui(Selection("", "", "", "local"), false, None, None, false, None, false)

  function Disarmed(u: Ui): Ui { u.(armed := false, token := None, restatement := None) }

  function Reselected(u: Ui, key: string, value: string): Ui {
    match key
    case "model" => Disarmed(u.(sel := u.sel.(model := value)))
    case "arm" => Disarmed(u.(sel := u.sel.(arm := value)))
    case "org" => Disarmed(u.(sel := u.sel.(org := value)))
    case "kind" => Disarmed(u.(sel := u.sel.(kind := value)))
    case _ => u
  }

  /** The org is kept: a preset never guesses one. */
  function Preset(u: Ui, model: Option<string>, arm: Option<string>, kind: Option<string>): Ui {
    var sel := Selection(OrEmpty(model), OrEmpty(arm), u.sel.org, if kind == Some("cloud") then "cloud" else "local");
    Disarmed(u.(sel := sel)).(refusal := None)
  }

  function Dismissed(u: Ui): Ui { Disarmed(u).(refusal := None) }

  function ArmSent(u: Ui): Ui { u.(pending := true, refusal := None) }

  datatype Reply =
    | Previewed(token: Option<string>, restatement: Option<string>)
    | Started(unattributed: Option<string>)
    | Refused(code: string, reason: string)
    | Unreachable(reason: string)

  function ArmReplied(u: Ui, reply: Reply): Ui {
    var settled := match reply
      case Previewed(token, restatement) => u.(armed := true, token := token, restatement := restatement)
      case Started(_) => u.(armed := true, token := None, restatement := None)
      case Refused(code, reason) => Disarmed(u.(refusal := Some(Refusal(code, reason))))
      case Unreachable(reason) => Disarmed(u.(refusal := Some(Refusal("unreachable", reason))));
    settled.(pending := false)
  }

  function StartSent(u: Ui): Ui { if OrEmpty(u.token) == "" then Disarmed(u) else u.(pending := true) }

  function StartReplied(u: Ui, reply: Reply): Ui {
    var settled := match reply
      case Started(unattributed) =>
        var live := u.(started := true);
        if unattributed.Some? then live.(refusal := Some(Refusal("unattributed", unattributed.value))) else live
      case Previewed(_, _) => u.(started := true)
      case Refused(code, reason) => u.(refusal := Some(Refusal(code, reason)), started := false)
      case Unreachable(reason) => u.(refusal := Some(Refusal("unreachable", reason)), started := false);
    Disarmed(settled).(pending := false)
  }

  /** A preview's answer ends the waiting. A success arms with what the server sent; anything else disarms and
      leaves the reason. */
  lemma ArmSettles(u: Ui, reply: Reply)
    ensures
      var after := ArmReplied(u, reply);
      && !after.pending && after.sel == u.sel && after.started == u.started
      && (reply.Previewed? ==>
            after.armed && after.token == reply.token && after.restatement == reply.restatement && after.refusal == u.refusal)
      && (reply.Refused? || reply.Unreachable? ==>
            && !after.armed && after.token == None && after.restatement == None
            && after.refusal == Some(Refusal(if reply.Refused? then reply.code else "unreachable", reply.reason)))
  {
  }

  /** A start's answer always ends the waiting and disarms; only a success counts as started, and only a refusal,
      a lost answer or an unattributed success leaves a reason. */
  lemma StartSettles(u: Ui, reply: Reply)
    ensures
      var after := StartReplied(u, reply);
      && !after.pending && !after.armed && after.token == None && after.restatement == None && after.sel == u.sel
      && (after.started <==> reply.Started? || reply.Previewed?)
      && after.refusal ==
           match reply
           case Started(unattributed) => if unattributed.Some? then Some(Refusal("unattributed", unattributed.value)) else u.refusal
           case Previewed(_, _) => u.refusal
           case Refused(code, reason) => Some(Refusal(code, reason))
           case Unreachable(reason) => Some(Refusal("unreachable", reason))
  {
  }

  /** The module object `ui`, updated by each function. */
  class RunControl {
    var sel: Selection
    var armed: bool
    var token: Option<string>
    var restatement: Option<string>
    var pending: bool
    var refusal: Option<Refusal>
    var started: bool

    function State(): Ui
      reads this
    {
      Ui(sel, armed, token, restatement, pending, refusal, started)
    }

    constructor ()
      ensures State() == INITIAL
    {
      sel := Selection("", "", "", "local");
      armed, token, restatement, pending, refusal, started := false, None, None, false, None, false;
    }

    method Disarm()
      modifies this
      ensures State() == Disarmed(old(State()))
    {
      armed := false;
      token := None;
      restatement := None;
    }

    method SetRunSel(key: string, value: string)
      modifies this
      ensures State() == Reselected(old(State()), key, value)
    {
      match key {
      case "model" => sel := sel.(model := value);
      case "arm" => sel := sel.(arm := value);
      case "org" => sel := sel.(org := value);
      case "kind" => sel := sel.(kind := value);
      case _ => return;
      }
      Disarm();
    }

    method PresetRun(model: Option<string>, arm: Option<string>, kind: Option<string>)
      modifies this
      ensures State() == Preset(old(State()), model, arm, kind)
    {
      sel := sel.(model := OrEmpty(model));
      sel := sel.(arm := OrEmpty(arm));
      sel := sel.(kind := if kind == Some("cloud") then "cloud" else "local");
      Disarm();
      refusal := None;
    }

    /** armRun up to its await. */
    method ArmSend() returns (body: Payload)
      modifies this
      ensures State() == ArmSent(old(State())) && body == PayloadOf(old(sel))
    {
      pending := true;
      refusal := None;
      body := PayloadOf(sel);
    }

    /** armRun from its reply on. */
    method ArmReceive(reply: Reply)
      modifies this
      ensures State() == ArmReplied(old(State()), reply)
    {
      match reply {
      case Previewed(t, r) => armed, token, restatement := true, t, r;
      case Started(_) => armed, token, restatement := true, None, None;
      case Refused(code, reason) =>
        refusal := Some(Refusal(code, reason));
        Disarm();
      case Unreachable(reason) =>
        refusal := Some(Refusal("unreachable", reason));
        Disarm();
      }
      pending := false;
    }

    /** startRun up to its await; nothing is sent without a token. */
    method StartSend() returns (request: Option<(Payload, string)>)
      modifies this
      ensures State() == StartSent(old(State()))
      ensures request == if OrEmpty(old(token)) == "" then None else Some((PayloadOf(old(sel)), old(token).value))
    {
      if OrEmpty(token) == "" {
        Disarm();
        return None;
      }
      pending := true;
      return Some((PayloadOf(sel), token.value));
    }

    /** startRun from its reply on; it always disarms. */
    method StartReceive(reply: Reply)
      modifies this
      ensures State() == StartReplied(old(State()), reply)
    {
      match reply {
      case Started(unattributed) =>
        started := true;
        if unattributed.Some? {
          refusal := Some(Refusal("unattributed", unattributed.value));
        }
      case Previewed(_, _) => started := true;
      case Refused(code, reason) =>
        refusal := Some(Refusal(code, reason));
        started := false;
      case Unreachable(reason) =>
        refusal := Some(Refusal("unreachable", reason));
        started := false;
      }
      pending := false;
      Disarm();
    }
  }

  // ----- every interleaving with the server -----

  /** A start on the wire, with the restatement the client held when it was sent. */
  datatype Request = Request(body: Payload, confirm: string, shown: Option<string>)

  /** A run the server started, and the restatement that was held with its token. */
  datatype Accepted = Accepted(params: Params, shown: Option<string>)

  datatype World = World(ui: Ui, previews: seq<Payload>, starts: seq<Request>, accepted: seq<Accepted>)

  /** How an answer reaches the client: as sent, as a body that does not parse, or not at all. */
  datatype Fate = Arrives | Garbled | Lost

  /** Preview and start answers come in any order; willing is everything else the server may refuse for. */
  datatype Action =
    | Select(key: string, value: string)
    | PresetFrom(model: Option<string>, arm: Option<string>, kind: Option<string>)
    | Dismiss
    | Arm
    | AnswerPreview(index: nat, willing: bool, fate: Fate)
    | Confirm
    | AnswerStart(index: nat, willing: bool, fate: Fate)

  function Without<T>(s: seq<T>, i: nat): seq<T>
    requires i < |s|
  {
    s[..i] + s[i + 1..]
  }

  function PreviewReply(server: Server, p: Params, willing: bool, fate: Fate): Reply {
    if fate == Lost then Unreachable("network")
    else if !willing || !Valid(server, p) then Refused("HTTP 400", "preview refused")
    else if fate == Garbled then Previewed(None, None)
    else Previewed(Some(ConfirmationToken(p)), Some(Restatement(server, p)))
  }

  /** The server starts a run when its checks pass and the token is the one it computes itself. */
  predicate Starts(server: Server, r: Request, willing: bool) {
    willing && Valid(server, ParamsOf(r.body)) && r.confirm == ConfirmationToken(ParamsOf(r.body))
  }

  function StartReply(started: bool, fate: Fate): Reply {
    if fate == Lost then Unreachable("network")
    else if started then Started(None)
    else Refused("bad_confirmation", "refused")
  }

  /** What the server has accepted after answering a request. */
  function AcceptedAfter(server: Server, accepted: seq<Accepted>, r: Request, willing: bool): seq<Accepted> {
    if Starts(server, r, willing) then accepted + [Accepted(ParamsOf(r.body), r.shown)] else accepted
  }

  function Next(server: Server, w: World, action: Action): World {
    match action
    case Select(key, value) => w.(ui := Reselected(w.ui, key, value))
    case PresetFrom(model, arm, kind) => w.(ui := Preset(w.ui, model, arm, kind))
    case Dismiss => w.(ui := Dismissed(w.ui))
    case Arm => w.(ui := ArmSent(w.ui), previews := w.previews + [PayloadOf(w.ui.sel)])
    case AnswerPreview(i, willing, fate) =>
      if i >= |w.previews| then w
      else
        var reply := PreviewReply(server, ParamsOf(w.previews[i]), willing, fate);
        w.(ui := ArmReplied(w.ui, reply), previews := Without(w.previews, i))
    case Confirm =>
      if OrEmpty(w.ui.token) == "" then w.(ui := StartSent(w.ui))
      else
        w.(ui := StartSent(w.ui),
           starts := w.starts + [Request(PayloadOf(w.ui.sel), w.ui.token.value, w.ui.restatement)])
    case AnswerStart(i, willing, fate) =>
      if i >= |w.starts| then w
      else
        var r := w.starts[i];
        World(StartReplied(w.ui, StartReply(Starts(server, r, willing), fate)), w.previews, Without(w.starts, i),
              AcceptedAfter(server, w.accepted, r, willing))
  }

  function Run(server: Server, actions: seq<Action>): World {
    if |actions| == 0 then World(INITIAL, [], [], [])
    else Next(server, Run(server, actions[..|actions| - 1]), actions[|actions| - 1])
  }

  // ----- safety over every run -----

  /** Token and restatement were minted together, for some valid parameters. */
  ghost predicate Minted(server: Server, token: string, shown: Option<string>) {
    exists p :: Valid(server, p) && Readable(p) && token == ConfirmationToken(p) && shown == Some(Restatement(server, p))
  }

  ghost predicate UiOk(server: Server, u: Ui) {
    u.token.Some? ==> u.armed && Minted(server, u.token.value, u.restatement)
  }

  ghost predicate RequestsOk(server: Server, starts: seq<Request>) {
    forall r <- starts :: Minted(server, r.confirm, r.shown)
  }

  ghost predicate AcceptedOk(server: Server, accepted: seq<Accepted>) {
    forall a <- accepted :: Valid(server, a.params) && a.shown == Some(Restatement(server, a.params))
  }

  ghost predicate Inv(server: Server, w: World) {
    UiOk(server, w.ui) && RequestsOk(server, w.starts) && AcceptedOk(server, w.accepted)
  }

  lemma RequestFewer(server: Server, starts: seq<Request>, i: nat)
    requires RequestsOk(server, starts) && i < |starts|
    ensures RequestsOk(server, Without(starts, i)) && Minted(server, starts[i].confirm, starts[i].shown)
  {
    assert forall r :: r in Without(starts, i) ==> r in starts;
    assert starts[i] in starts;
  }

  lemma StartDisarms(server: Server, u: Ui, reply: Reply)
    ensures StartReplied(u, reply).token == None && UiOk(server, StartReplied(u, reply))
  {
  }

  lemma ArmRepliedOk(server: Server, u: Ui, reply: Reply)
    requires reply.Previewed? && reply.token.Some? ==> Minted(server, reply.token.value, reply.restatement)
    ensures UiOk(server, ArmReplied(u, reply))
  {
  }

  lemma PreviewMints(server: Server, u: Ui, body: Payload, willing: bool, fate: Fate)
    ensures UiOk(server, ArmReplied(u, PreviewReply(server, ParamsOf(body), willing, fate)))
  {
    var p := ParamsOf(body);
    ParamsReadable(body);
    assert Valid(server, p) ==> Minted(server, ConfirmationToken(p), Some(Restatement(server, p)));
    ArmRepliedOk(server, u, PreviewReply(server, p, willing, fate));
  }

  /** An accepted start shows its own parameters: the token it carried determines them. */
  lemma AcceptedShows(server: Server, r: Request, willing: bool)
    requires NoOverlap(server) && Minted(server, r.confirm, r.shown) && Starts(server, r, willing)
    ensures r.shown == Some(Restatement(server, ParamsOf(r.body)))
  {
    var p :| Valid(server, p) && Readable(p) && r.confirm == ConfirmationToken(p) && r.shown == Some(Restatement(server, p));
    ParamsReadable(r.body);
    TokenDetermines(server, p, ParamsOf(r.body));
  }

  lemma AcceptedAfterOk(server: Server, accepted: seq<Accepted>, r: Request, willing: bool)
    requires AcceptedOk(server, accepted) && Minted(server, r.confirm, r.shown) && NoOverlap(server)
    ensures AcceptedOk(server, AcceptedAfter(server, accepted, r, willing))
  {
    if Starts(server, r, willing) {
      AcceptedShows(server, r, willing);
      AcceptedMore(server, accepted, Accepted(ParamsOf(r.body), r.shown));
    }
  }

  lemma AcceptedMore(server: Server, accepted: seq<Accepted>, a: Accepted)
    requires AcceptedOk(server, accepted) && Valid(server, a.params) && a.shown == Some(Restatement(server, a.params))
    ensures AcceptedOk(server, accepted + [a])
  {
  }

  lemma RequestMore(server: Server, starts: seq<Request>, r: Request)
    requires RequestsOk(server, starts) && Minted(server, r.confirm, r.shown)
    ensures RequestsOk(server, starts + [r])
  {
  }

  lemma AnswerPreviewKeeps(server: Server, w: World, i: nat, willing: bool, fate: Fate)
    requires Inv(server, w)
    ensures Inv(server, Next(server, w, AnswerPreview(i, willing, fate)))
  {
    if i < |w.previews| {
      PreviewMints(server, w.ui, w.previews[i], willing, fate);
    }
  }

  lemma ConfirmKeeps(server: Server, w: World)
    requires Inv(server, w)
    ensures Inv(server, Next(server, w, Confirm))
  {
    if OrEmpty(w.ui.token) != "" {
      RequestMore(server, w.starts, Request(PayloadOf(w.ui.sel), w.ui.token.value, w.ui.restatement));
    }
  }

  lemma AnswerStartKeeps(server: Server, w: World, i: nat, willing: bool, fate: Fate)
    requires Inv(server, w) && NoOverlap(server)
    ensures Inv(server, Next(server, w, AnswerStart(i, willing, fate)))
  {
    if i < |w.starts| {
      RequestFewer(server, w.starts, i);
      StartDisarms(server, w.ui, StartReply(Starts(server, w.starts[i], willing), fate));
      AcceptedAfterOk(server, w.accepted, w.starts[i], willing);
    }
  }

  lemma SelectKeeps(server: Server, w: World, key: string, value: string)
    requires Inv(server, w)
    ensures Inv(server, Next(server, w, Select(key, value)))
  {
    ReselectedDisarms(w.ui, key, value);
  }

  lemma ReselectedDisarms(u: Ui, key: string, value: string)
    ensures Reselected(u, key, value) == u || Reselected(u, key, value).token == None
  {
  }

  lemma NextKeepsInv(server: Server, w: World, action: Action)
    requires Inv(server, w) && NoOverlap(server)
    ensures Inv(server, Next(server, w, action))
  {
    match action
    case Select(key, value) => SelectKeeps(server, w, key, value);
    case AnswerPreview(i, willing, fate) => AnswerPreviewKeeps(server, w, i, willing, fate);
    case Confirm => ConfirmKeeps(server, w);
    case AnswerStart(i, willing, fate) => AnswerStartKeeps(server, w, i, willing, fate);
    case _ =>
  }

  /** Under any interleaving every accepted start carries exactly the parameters of the restatement
      that was held together with its token. */
  lemma {:induction false} EveryStartWasShown(server: Server, actions: seq<Action>)
    requires NoOverlap(server)
    ensures Inv(server, Run(server, actions))
    ensures forall a <- Run(server, actions).accepted ::
      Valid(server, a.params) && a.shown == Some(Restatement(server, a.params)) && Tells(server, a.params, a.shown.value)
  {
    forall a <- Run(server, actions).accepted | Valid(server, a.params) ensures Tells(server, a.params, Restatement(server, a.params)) {
      RestatementTells(server, a.params);
    }
    if |actions| > 0 {
      EveryStartWasShown(server, actions[..|actions| - 1]);
      NextKeepsInv(server, Run(server, actions[..|actions| - 1]), actions[|actions| - 1]);
    }
  }

  // ----- and only without an overlap -----

  lemma RunMore(server: Server, actions: seq<Action>, action: Action)
    ensures Run(server, actions + [action]) == Next(server, Run(server, actions), action)
  {
    assert (actions + [action])[..|actions|] == actions;
  }

  /** Trimmed selections reach the server as they are. */
  lemma SelectionRead(model: string, org: string, kind: string)
    requires Strip(model) == model && Strip(org) == org && org != ""
    ensures ParamsOf(PayloadOf(Selection(model, "on", org, kind))) == Params(model, Some("on"), Some(org), kind)
  {
  }

  /** Two selections in a row, the second after the first was sent for a preview. */
  lemma SelectedTwice(server: Server, kind: string, a: string, orgA: string, m: string, orgM: string)
    returns (actions: seq<Action>)
    requires kind in {"local", "cloud"}
    ensures
      var w := Run(server, actions);
      && w.ui.sel == Selection(m, "on", orgM, kind)
      && w.previews == [PayloadOf(Selection(a, "on", orgA, kind))]
      && w.starts == [] && w.accepted == []
  {
    var s1 := [] + [PresetFrom(Some(a), Some("on"), Some(kind))];
    var s2 := s1 + [Select("org", orgA)];
    var s3 := s2 + [Arm];
    var s4 := s3 + [Select("model", m)];
    actions := s4 + [Select("org", orgM)];
    RunMore(server, [], PresetFrom(Some(a), Some("on"), Some(kind)));
    assert Run(server, s1) == World(Preset(INITIAL, Some(a), Some("on"), Some(kind)), [], [], []);
    RunMore(server, s1, Select("org", orgA));
    assert Run(server, s2).ui.sel == Selection(a, "on", orgA, kind);
    RunMore(server, s2, Arm);
    RunMore(server, s3, Select("model", m));
    assert Run(server, s4).ui.sel == Selection(m, "on", orgA, kind);
    RunMore(server, s4, Select("org", orgM));
  }

  lemma LateArms(server: Server, w: World, p: Params)
    requires |w.previews| == 1 && ParamsOf(w.previews[0]) == p && Valid(server, p)
    ensures
      Next(server, w, AnswerPreview(0, true, Arrives))
      == World(ArmReplied(w.ui, Previewed(Some(ConfirmationToken(p)), Some(Restatement(server, p)))), [], w.starts, w.accepted)
  {
    assert Without(w.previews, 0) == [];
  }

  lemma ConfirmSends(server: Server, w: World, token: string, shown: string)
    requires w.ui.token == Some(token) && token != "" && w.ui.restatement == Some(shown) && w.starts == []
    ensures
      var after := Next(server, w, Confirm);
      after.starts == [Request(PayloadOf(w.ui.sel), token, Some(shown))] && after.accepted == w.accepted
  {
  }

  lemma AnswerAccepts(server: Server, w: World, request: Request)
    requires w.starts == [request] && Starts(server, request, true) && w.accepted == []
    ensures Next(server, w, AnswerStart(0, true, Arrives)).accepted == [Accepted(ParamsOf(request.body), request.shown)]
  {
  }

  /** The late reply, the confirmation and the answer: the server starts q, the operator was shown p. */
  lemma StartedUnshown(server: Server, actions: seq<Action>, p: Params, q: Params) returns (more: seq<Action>)
    requires Valid(server, p) && Valid(server, q) && ConfirmationToken(p) == ConfirmationToken(q) != ""
    requires
      var w := Run(server, actions);
      |w.previews| == 1 && ParamsOf(w.previews[0]) == p && ParamsOf(PayloadOf(w.ui.sel)) == q && w.starts == [] && w.accepted == []
    ensures Run(server, more).accepted == [Accepted(q, Some(Restatement(server, p)))]
  {
    var w, token, shown := Run(server, actions), ConfirmationToken(q), Restatement(server, p);
    var s1 := actions + [AnswerPreview(0, true, Arrives)];
    var s2 := s1 + [Confirm];
    more := s2 + [AnswerStart(0, true, Arrives)];
    RunMore(server, actions, AnswerPreview(0, true, Arrives));
    RunMore(server, s1, Confirm);
    RunMore(server, s2, AnswerStart(0, true, Arrives));
    LateArms(server, w, p);
    ConfirmSends(server, Run(server, s1), token, shown);
    AnswerAccepts(server, Run(server, s2), Request(PayloadOf(w.ui.sel), token, Some(shown)));
  }

  lemma TokenNotEmpty(p: Params)
    requires p.arm.Some?
    ensures ConfirmationToken(p) != ""
  {
    TokenShape(p);
  }

  /** The restatement up to its third line. */
  lemma RestatementStarts(server: Server, p: Params) returns (rest: string)
    requires p.arm == Some("on")
    ensures Restatement(server, p) == "Start a MEMORY ON cell" + "\n" + ("subject model: " + p.model + "\n" + rest)
  {
    var org := if p.org.Some? then "org: " + p.org.value else "org: not applicable to a control cell";
    assert "Start a " + "MEMORY ON" + " cell" == "Start a MEMORY ON cell";
    rest := Substrate(server, p) + "\n" + ("context: registry default (262144)" + "\n" + org);
    JoinFive("Start a MEMORY ON cell", "subject model: " + p.model, Substrate(server, p), "context: registry default (262144)", org, "\n");
  }

  /** A restatement ends its model's line, so a model and one that goes on from it read differently. */
  lemma RestatementsDiffer(server: Server, p: Params, q: Params)
    requires p.arm == q.arm == Some("on") && p.model + SEPARATOR <= q.model
    ensures Restatement(server, p) != Restatement(server, q)
  {
    var restP := RestatementStarts(server, p);
    var restQ := RestatementStarts(server, q);
    var head, k := "Start a MEMORY ON cell" + "\n", |"subject model: "| + |p.model|;
    var lineP, lineQ := "subject model: " + p.model, "subject model: " + q.model;
    assert (lineP + "\n" + restP)[k] == '\n';
    assert q.model[|p.model|] == SEPARATOR[0] == '|';
    assert (lineQ + "\n" + restQ)[k] == lineQ[k] == '|';
    assert (head + (lineP + "\n" + restP))[|head| + k] != (head + (lineQ + "\n" + restQ))[|head| + k];
  }

  /** With an overlap some run starts a cell whose parameters were never shown. */
  lemma OverlapMisleads(server: Server, kind: string, a: string, m: string) returns (actions: seq<Action>)
    requires kind in {"local", "cloud"} && Selectable(server, kind, a) && Selectable(server, kind, m) && Overlaps(a, m)
    ensures !AcceptedOk(server, Run(server, actions).accepted)
  {
    var org := CollidingOrg(a, m);
    var p, q := Params(a, Some("on"), Some(org), kind), Params(m, Some("on"), Some("z"), kind);
    OverlapCollides(server, kind, a, m);
    TokenNotEmpty(q);
    SelectionRead(a, org, kind);
    SelectionRead(m, "z", kind);
    var before := SelectedTwice(server, kind, a, org, m, "z");
    actions := StartedUnshown(server, before, p, q);
    RestatementsDiffer(server, p, q);
    assert Run(server, actions).accepted[0] in Run(server, actions).accepted;
  }

  /** Every accepted start of every run was shown exactly when no model the server offers overlaps
      another of the same substrate. */
  lemma ShownExactly(server: Server)
    ensures NoOverlap(server) <==> forall actions :: AcceptedOk(server, Run(server, actions).accepted)
  {
    if NoOverlap(server) {
      forall actions ensures AcceptedOk(server, Run(server, actions).accepted) {
        EveryStartWasShown(server, actions);
      }
    } else {
      var kind, a, m := OverlapFound(server);
      var actions := OverlapMisleads(server, kind, a, m);
    }
  }

  // ----- a reply that arrives after the selection changed -----

  lemma ReplyArms(server: Server, u: Ui, p: Params)
    requires Valid(server, p)
    ensures
      var after := ArmReplied(u, PreviewReply(server, p, true, Arrives));
      && after.armed && after.token == Some(ConfirmationToken(p)) && after.restatement == Some(Restatement(server, p))
      && after.sel == u.sel
  {
  }

  lemma TokenConfirms(server: Server, p: Params, q: Params)
    requires NoOverlap(server) && Valid(server, p) && Readable(p) && Readable(q)
    ensures Valid(server, q) && ConfirmationToken(p) == ConfirmationToken(q) <==> p == q
  {
    if Valid(server, q) && ConfirmationToken(p) == ConfirmationToken(q) {
      TokenDetermines(server, p, q);
    }
  }

  /** A preview reply arms whatever the selection has become; the token it arms confirms the current
      selection exactly when the parameters sent are the parameters now selected. */
  lemma LateReply(server: Server, u: Ui, sent: Payload)
    requires NoOverlap(server) && Valid(server, ParamsOf(sent))
    ensures
      var after := ArmReplied(u, PreviewReply(server, ParamsOf(sent), true, Arrives));
      var request := Request(PayloadOf(u.sel), ConfirmationToken(ParamsOf(sent)), Some(Restatement(server, ParamsOf(sent))));
      && after.armed && after.token == Some(request.confirm) && after.restatement == request.shown && after.sel == u.sel
      && (Starts(server, request, true) <==> ParamsOf(PayloadOf(u.sel)) == ParamsOf(sent))
  {
    ParamsReadable(sent);
    ParamsReadable(PayloadOf(u.sel));
    ReplyArms(server, u, ParamsOf(sent));
    TokenConfirms(server, ParamsOf(sent), ParamsOf(PayloadOf(u.sel)));
  }

  /** So "any parameter change disarms" does not survive a preview in flight: whatever happened
      before, a preset, a preview, a new model and the late reply leave the client armed for the
      model it no longer has selected. */
  lemma ArmedForAnother(server: Server, w: World, kind: string, model: string, other: string)
    requires w.previews == [] && kind in {"local", "cloud"}
    requires Selectable(server, kind, model) && Strip(other) != model
    ensures
      var sent := Next(server, Next(server, w, PresetFrom(Some(model), Some("off"), Some(kind))), Arm);
      var ui := Next(server, Next(server, sent, Select("model", other)), AnswerPreview(0, true, Arrives)).ui;
      && ui.armed && ui.sel.model == other
      && ui.token == Some(ConfirmationToken(Params(model, Some("off"), None, kind)))
      && ParamsOf(PayloadOf(ui.sel)).model != model
  {
    var sent := Next(server, Next(server, w, PresetFrom(Some(model), Some("off"), Some(kind))), Arm);
    assert sent.previews == [PayloadOf(Selection(model, "off", w.ui.sel.org, kind))];
    assert ParamsOf(sent.previews[0]) == Params(model, Some("off"), None, kind);
  }

  // ----- answers in time -----

  /** The action is a preview reply that arms the client. */
  predicate Arms(server: Server, w: World, action: Action) {
    action.AnswerPreview? && action.index < |w.previews| && action.willing && action.fate == Arrives
    && Valid(server, ParamsOf(w.previews[action.index]))
  }

  /** A preview reply that arms comes while its parameters are still the ones selected; refusals and
      lost or garbled replies may come at any time. */
  ghost predicate InTime(server: Server, w: World, action: Action) {
    Arms(server, w, action) ==> ParamsOf(w.previews[action.index]) == ParamsOf(PayloadOf(w.ui.sel))
  }

  ghost predicate AllInTime(server: Server, actions: seq<Action>) {
    |actions| == 0
    || (AllInTime(server, actions[..|actions| - 1]) && InTime(server, Run(server, actions[..|actions| - 1]), actions[|actions| - 1]))
  }

  /** What is armed is what is selected. */
  ghost predicate MatchesSelection(server: Server, u: Ui) {
    u.token.Some? ==>
      var p := ParamsOf(PayloadOf(u.sel));
      u.armed && u.token.value == ConfirmationToken(p) && u.restatement == Some(Restatement(server, p))
  }

  lemma ReplyMatches(server: Server, u: Ui, p: Params, willing: bool, fate: Fate)
    requires willing && fate == Arrives && Valid(server, p) ==> p == ParamsOf(PayloadOf(u.sel))
    ensures MatchesSelection(server, ArmReplied(u, PreviewReply(server, p, willing, fate)))
  {
  }

  lemma NextMatches(server: Server, w: World, action: Action)
    requires MatchesSelection(server, w.ui) && InTime(server, w, action)
    ensures MatchesSelection(server, Next(server, w, action).ui)
  {
    match action
    case Select(key, value) => ReselectedDisarms(w.ui, key, value);
    case AnswerPreview(i, willing, fate) =>
      if i < |w.previews| {
        ReplyMatches(server, w.ui, ParamsOf(w.previews[i]), willing, fate);
      }
    case AnswerStart(i, willing, fate) =>
      if i < |w.starts| {
        StartDisarms(server, w.ui, StartReply(Starts(server, w.starts[i], willing), fate));
      }
    case _ =>
  }

  /** As long as no preview arms too late, every change of the selection disarms, and a client
      that is armed is armed for exactly what it has selected. */
  lemma {:induction false} ArmedMatchesSelection(server: Server, actions: seq<Action>)
    requires AllInTime(server, actions)
    ensures AllMatch(server, actions)
  {
    if |actions| > 0 {
      ArmedMatchesSelection(server, actions[..|actions| - 1]);
      NextMatches(server, Run(server, actions[..|actions| - 1]), actions[|actions| - 1]);
    }
  }

  /** After every step of the run so far what was armed was what was selected. */
  ghost predicate AllMatch(server: Server, actions: seq<Action>) {
    MatchesSelection(server, Run(server, actions).ui) && (|actions| == 0 || AllMatch(server, actions[..|actions| - 1]))
  }

  // ----- and a reply that arms too late always mismatches -----

  lemma ArmWordAt(p: Params, text: string)
    requires ArmLine(p) + "\n" <= text
    ensures |text| > 8 && text[8] == ArmWord(p.arm)[0]
  {
    assert text[8] == (ArmLine(p) + "\n")[8] == ArmLine(p)[8];
  }

  /** The first line gives the arm. */
  lemma SameArm(server: Server, p: Params, q: Params)
    requires p.arm in {Some("on"), Some("off")} && q.arm in {None, Some("on"), Some("off")}
    requires Restatement(server, p) == Restatement(server, q)
    ensures p.arm == q.arm && p.model + ("\n" + Terms(server, p)) == q.model + ("\n" + Terms(server, q))
  {
    RestatementShape(server, p);
    RestatementShape(server, q);
    ArmWordAt(p, Restatement(server, p));
    ArmWordAt(q, Restatement(server, q));
    SamePrefixSplit(ArmLine(p) + "\n", ArmLine(q) + "\n", "subject model: " + (p.model + ("\n" + Terms(server, p))),
                    "subject model: " + (q.model + ("\n" + Terms(server, q))));
    SamePrefixSplit("subject model: ", "subject model: ", p.model + ("\n" + Terms(server, p)), q.model + ("\n" + Terms(server, q)));
  }

  lemma EndsAt(a: string, b: string, x: string, x': string)
    requires |x| > 0 && a + x == b + x'
    ensures |a| < |b| ==> b[|a|] == x[0]
  {
    assert (a + x)[|a|] == x[0];
  }

  /** Two names followed by the same character in one text and by another in a second one are equal. */
  lemma SameName(a: string, b: string, x: string, x': string, y: string, y': string)
    requires |x| > 0 && |x'| > 0 && |y| > 0 && |y'| > 0 && x[0] == x'[0] != y[0] == y'[0]
    requires a + x == b + x' && a + y == b + y'
    ensures a == b && x == x' && y == y'
  {
    EndsAt(a, b, x, x');
    EndsAt(a, b, y, y');
    EndsAt(b, a, x', x);
    EndsAt(b, a, y', y);
    SamePrefixSplit(a, b, x, x');
    SamePrefixSplit(a, b, y, y');
  }

  /** The token after its model. */
  function Fingerprint(p: Params): string { "arm=" + OrEmpty(p.arm) + ("|org=" + AfterOrg(p)) }

  lemma TokenAfterModel(p: Params)
    requires p.arm.Some?
    ensures ConfirmationToken(p) == "model=" + (p.model + ("|" + Fingerprint(p)))
  {
    TokenShape(p);
    var o, tail := OrEmpty(p.org), "|context=default|kind=" + p.kind;
    assert "model=" + p.model + "|" + ("arm=" + p.arm.value + "|org=" + o) + "|context=default|kind=" + p.kind
        == "model=" + (p.model + ("|" + ("arm=" + p.arm.value + ("|org=" + (o + tail)))));
  }

  /** With the model the same, the substrate's line has the same length, so the org's line is the same too. */
  lemma SameOrgLine(server: Server, p: Params, q: Params)
    requires p.model == q.model && Terms(server, p) == Terms(server, q)
    ensures OrgLine(p) == OrgLine(q)
  {
    SameSubstrate(server, p, q);
    SamePrefixSplit(Substrate(server, p) + "\n", Substrate(server, q) + "\n",
                    "context: registry default (262144)" + "\n" + OrgLine(p), "context: registry default (262144)" + "\n" + OrgLine(q));
    SamePrefixSplit("context: registry default (262144)" + "\n", "context: registry default (262144)" + "\n", OrgLine(p), OrgLine(q));
  }

  lemma SameSubstrate(server: Server, p: Params, q: Params)
    requires p.model == q.model && Terms(server, p) == Terms(server, q)
    ensures Substrate(server, p) == Substrate(server, q)
  {
    assert Terms(server, p)[11] == Substrate(server, p)[11] && Terms(server, q)[11] == Substrate(server, q)[11];
    assert Substrate(server, p)[11] == if p.kind == "cloud" then 'C' else 'L';
    assert Substrate(server, q)[11] == if q.kind == "cloud" then 'C' else 'L';
  }

  lemma NamedOrAbsent(p: Params, q: Params)
    requires OrgLine(p) == OrgLine(q)
    ensures p.org.Some? && q.org.Some? ==> p.org == q.org
    ensures p.org.Some? && q.org.None? ==> p.org.value == "not applicable to a control cell"
  {
    assert "org: not applicable to a control cell" == "org: " + "not applicable to a control cell";
    if p.org.Some? {
      SamePrefixSplit("org: ", "org: ", p.org.value, if q.org.Some? then q.org.value else "not applicable to a control cell");
    }
  }

  /** What the token says after "org=". */
  function AfterOrg(p: Params): (r: string)
    ensures |r| > 0 && r[0] == if OrEmpty(p.org) == "" then '|' else OrEmpty(p.org)[0]
  {
    OrEmpty(p.org) + ("|context=default|kind=" + p.kind)
  }

  /** Of two readable orgs under one arm the line, and what the token says after it, give the org. */
  lemma SameOrg(p: Params, q: Params)
    requires Readable(p) && Readable(q) && OrgLine(p) == OrgLine(q) && Fingerprint(p) == Fingerprint(q) && p.arm == q.arm
    ensures p.org == q.org && p.kind == q.kind
  {
    SamePrefixSplit("arm=" + OrEmpty(p.arm), "arm=" + OrEmpty(q.arm), "|org=" + AfterOrg(p), "|org=" + AfterOrg(q));
    SamePrefixSplit("|org=", "|org=", AfterOrg(p), AfterOrg(q));
    NamedOrAbsent(p, q);
    NamedOrAbsent(q, p);
    assert p.org == q.org;
    SamePrefixSplit(OrEmpty(p.org), OrEmpty(q.org), "|context=default|kind=" + p.kind, "|context=default|kind=" + q.kind);
    SamePrefixSplit("|context=default|kind=", "|context=default|kind=", p.kind, q.kind);
  }

  /** Token and restatement together determine the parameters, overlap or not. */
  lemma ShownTokenDetermines(server: Server, p: Params, q: Params)
    requires Valid(server, p) && Readable(p) && Readable(q) && q.arm in {None, Some("on"), Some("off")}
    requires ConfirmationToken(p) == ConfirmationToken(q) && Restatement(server, p) == Restatement(server, q)
    ensures p == q
  {
    SameArm(server, p, q);
    TokenAfterModel(p);
    TokenAfterModel(q);
    SamePrefixSplit("model=", "model=", p.model + ("|" + Fingerprint(p)), q.model + ("|" + Fingerprint(q)));
    SameName(p.model, q.model, "|" + Fingerprint(p), "|" + Fingerprint(q), "\n" + Terms(server, p), "\n" + Terms(server, q));
    SamePrefixSplit("|", "|", Fingerprint(p), Fingerprint(q));
    SamePrefixSplit("\n", "\n", Terms(server, p), Terms(server, q));
    SameOrgLine(server, p, q);
    SameOrg(p, q);
  }

  /** A client that matches its selection after a step did not arm too late in it. */
  lemma MatchNeedsInTime(server: Server, w: World, action: Action)
    requires MatchesSelection(server, Next(server, w, action).ui)
    ensures InTime(server, w, action)
  {
    if Arms(server, w, action) {
      var p, q := ParamsOf(w.previews[action.index]), ParamsOf(PayloadOf(w.ui.sel));
      ParamsReadable(w.previews[action.index]);
      ParamsReadable(PayloadOf(w.ui.sel));
      ReplyArms(server, w.ui, p);
      ShownTokenDetermines(server, p, q);
    }
  }

  /** A client stays armed for exactly what it has selected if and only if no preview arms after the
      parameters it was sent for were changed: in every run, for every server. */
  lemma {:induction false} MatchesExactlyInTime(server: Server, actions: seq<Action>)
    ensures AllMatch(server, actions) <==> AllInTime(server, actions)
  {
    if AllInTime(server, actions) {
      ArmedMatchesSelection(server, actions);
    }
    if AllMatch(server, actions) && |actions| > 0 {
      var before := actions[..|actions| - 1];
      MatchesExactlyInTime(server, before);
      MatchNeedsInTime(server, Run(server, before), actions[|actions| - 1]);
    }
  }
}
