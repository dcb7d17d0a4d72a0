/** What the registry's calls do to a node's admission and to what is shown of it, in the values themselves. */
module RegistryOutcomes {
  import opened Words
  import opened NodeRegistry
  import CM = ClusterManager

  // ---------------------------------------------------------------------------
  // Texts
  // ---------------------------------------------------------------------------

  /** A text is kept up to its first 23 characters. */
  lemma TextIsKept(t: string)
    ensures CopyText(t) <= t && |CopyText(t)| == (if |t| < 23 then |t| else 23)
  {
  }

  /** A profile the registry accepts, and the names of all of them. */
  predicate KnownProfile(p: string) {
    p == "gateway" || p == "field-node" || p == "relay-node" || p == "sensor-node" || p == "local-io-node"
  }

  /** Letters, digits, hyphen, underscore and full stop. */
  predicate PlainText(t: string) {
    forall c :: c in t ==> 'a' <= c <= 'z' || 'A' <= c <= 'Z' || '0' <= c <= '9' || c == '-' || c == '_' || c == '.'
  }

  lemma ValidTexts(p: string, t: string)
    ensures SupportedProfile(p) <==> KnownProfile(p)
    ensures ValidTemplate(t) <==> PlainText(t)
    ensures KnownProfile(p) ==> CopyText(p) == p
  {
    assert SUPPORTED[0] == "gateway" && SUPPORTED[1] == "field-node" && SUPPORTED[2] == "relay-node";
    assert SUPPORTED[3] == "sensor-node" && SUPPORTED[4] == "local-io-node" && |SUPPORTED| == 5;
    if ValidTemplate(t) {
      forall c | c in t ensures TemplateChar(c) { var i :| 0 <= i < |t| && t[i] == c; }
    }
    if PlainText(t) {
      forall i | 0 <= i < |t| ensures TemplateChar(t[i]) { assert t[i] in t; }
    }
  }

  // ---------------------------------------------------------------------------
  // Edits
  // ---------------------------------------------------------------------------

  /** The cluster reports the node. */
  predicate Reported(peers: seq<Peer>, id: u32) {
    exists j :: 0 <= j < |peers| && peers[j].id == id
  }

  /** The node is in the table, or can be entered: it is reported and a slot is free. */
  ghost predicate Reachable(s: seq<Entry>, id: u32, peers: seq<Peer>) {
    Listed(s, id) || (Reported(peers, id) && Listed(s, 0))
  }

  lemma ListedIsFound(s: seq<Entry>, id: u32)
    ensures Listed(s, id) <==> HasId(s, id)
  {
    hide Find;
    if HasId(s, id) { assert s[Find(s, id)].id == id; }
  }

  lemma ReportedIsFound(peers: seq<Peer>, id: u32)
    ensures Reported(peers, id) <==> CM.Find(peers, id) < |peers|
  {
    hide CM.Find;
  }

  lemma PreparedLists(s: seq<Entry>, id: u32, e: Edit, peers: seq<Peer>)
    requires Distinct(s) && id != 0
    ensures var t := Prepared(s, id, e, peers);
            && (HasId(t, id) <==> if e.Revoke? then Listed(s, id) else Reachable(s, id, peers))
            && (HasId(t, id) ==> t[Find(t, id)].state == Answer(s, id).state)
  {
    ListedIsFound(s, id);
    ListedIsFound(s, 0);
    ReportedIsFound(peers, id);
    PrepareKeeps(s, id, e, peers);
    var t := Prepared(s, id, e, peers);
    ListedIsFound(t, id);
    hide Find, CM.Find, Distinct;
    assert HasId(t, id) ==> Answer(t, id) == Record(t[Find(t, id)]);
    if SlotFor(s, id) < |s| { SlotMeans(s, id); }
    if !e.Revoke? && !HasId(s, id) && Reachable(s, id, peers) {
      assert t[SlotFor(s, id)].id == id;
    }
    hide Answer;
  }

  /** A node entered for an edit shows what the cluster reports of it, and no other slot is touched. */
  lemma SeedShows(s: seq<Entry>, id: u32, peers: seq<Peer>, k: nat, p: nat)
    requires Distinct(s) && id != 0 && !Listed(s, id) && k < |s| && p < |peers| && peers[p].id == id
    requires forall j :: 0 <= j < p ==> peers[j].id != id
    ensures var t := Seeded(s, id, peers);
            && |t| == |s|
            && (s[k].id != 0 ==> t[k] == s[k])
            && (t[k].id == id ==>
                  && ShowsReason(t[k])
                  && t[k] == Entry(id, 0, 0, peers[p].lastSeen, 0, peers[p].state, 0, 0, t[k].reason, 15, "", ""))
  {
    ListedIsFound(s, id);
    hide Find;
    CM.FindFirst(peers, id, p);
    hide CM.Find;
    if SlotFor(s, id) < |s| { SlotMeans(s, id); }
  }

  /**
   * Exactly when an edit is made: adopting and configuring need the node in the table or a reported node
   * and a free slot, activating needs it adopted, revoking needs it in the table; and a configuration
   * names a known profile and a template without special characters.
   */
  lemma EditIsMade(s: seq<Entry>, id: u32, e: Edit, peers: seq<Peer>)
    requires Distinct(s)
    ensures Attempted(s, id, e, peers) <==>
            && id != 0
            && match e
               case Adopt => Reachable(s, id, peers)
               case Configure(p, t) => Reachable(s, id, peers) && KnownProfile(p) && PlainText(t)
               case Activate => Answer(s, id).state >= 1
               case Revoke => Listed(s, id)
  {
    if e.Configure? { ValidTexts(e.profile, e.template); }
    if id != 0 { PreparedLists(s, id, e, peers); }
    ListedIsFound(s, id);
    hide Find, Prepared, Listed, Reported, ValidTemplate, SupportedProfile, KnownProfile, PlainText, Distinct;
  }

  /**
   * What an edit that is made and saved answers about the node from then on; about every other node, and
   * if it is not made or not saved, the answer stays.
   */
  lemma EditMeans(r: Registry, id: u32, e: Edit, peers: seq<Peer>, saved: bool, q: u32)
    requires WellFormed(r)
    ensures var a, b := Answer(r.slots, q), Answer(Administer(r, id, e, peers, saved).slots, q);
            if q != id || !saved || !Attempted(r.slots, id, e, peers) then b == a
            else match e
                 case Adopt => b == Admission(if a.state == 0 then 1 else a.state, a.profile, a.template)
                 case Configure(p, t) =>
                   b == Admission(if a.state >= 3 then 3 else 2, p, if |t| <= 23 then t else t[..23])
                 case Activate => b == Admission(3, a.profile, a.template)
                 case Revoke => b == Admission(0, "", "")
  {
    EditStep(r, id, e, peers, saved);
    if e.Configure? { ValidTexts(e.profile, e.template); }
    hide Administer, Answer, WellFormed, Transparent, Prepared, Find, SupportedProfile, ValidTemplate;
  }

  /**
   * Onboarding: adopting, configuring and activating a reachable node, all saved, leave it ACTIVE with its
   * profile and template, and so it stays across a reboot.
   */
  lemma OnboardingActivates(r: Registry, id: u32, p: string, t: string, peers: seq<Peer>)
    requires WellFormed(r) && id != 0 && Reachable(r.slots, id, peers) && KnownProfile(p) && PlainText(t)
    ensures var done := Run(r, [Administration(id, Adopt, peers, true),
                                Administration(id, Configure(p, t), peers, true),
                                Administration(id, Activate, peers, true)]);
            && Answer(done.slots, id) == Admission(3, p, if |t| <= 23 then t else t[..23])
            && Answer(Apply(done, Reboot).slots, id) == Answer(done.slots, id)
  {
    hide *;
    var configure := Configure(p, t);
    var a := Apply(r, Administration(id, Adopt, peers, true));
    var b := Apply(a, Administration(id, configure, peers, true));
    var c := Apply(b, Administration(id, Activate, peers, true));
    RunThree(r, Administration(id, Adopt, peers, true), Administration(id, configure, peers, true),
             Administration(id, Activate, peers, true));
    AnsweredIsListed(r, id);
    EditIsMade(r.slots, id, Adopt, peers);
    EditTakes(r, id, Adopt, peers);
    AnsweredIsListed(a, id);
    ListedIsReachable(a.slots, id, peers);
    EditIsMade(a.slots, id, configure, peers);
    EditTakes(a, id, configure, peers);
    AnsweredIsListed(b, id);
    EditIsMade(b.slots, id, Activate, peers);
    EditTakes(b, id, Activate, peers);
    RebootAgrees(c, id);
  }

  /** An edit that is made and saved: its answer, which a reboot then gives as well. */
  lemma EditTakes(r: Registry, id: u32, e: Edit, peers: seq<Peer>)
    requires WellFormed(r) && Attempted(r.slots, id, e, peers)
    ensures var a, n := Answer(r.slots, id), Apply(r, Administration(id, e, peers, true));
            var b := Answer(n.slots, id);
            && WellFormed(n) && Transparent(n)
            && match e
               case Adopt => b == Admission(if a.state == 0 then 1 else a.state, a.profile, a.template)
               case Configure(p, t) =>
                 b == Admission(if a.state >= 3 then 3 else 2, p, if |t| <= 23 then t else t[..23])
               case Activate => b == Admission(3, a.profile, a.template)
               case Revoke => b == Admission(0, "", "")
  {
    EditStep(r, id, e, peers, true);
    EditMeans(r, id, e, peers, true, id);
    hide WellFormed, Transparent, Attempted, Answer, Administer;
  }

  lemma RebootAgrees(r: Registry, id: u32)
    requires WellFormed(r) && Transparent(r)
    ensures Answer(Apply(r, Reboot).slots, id) == Answer(r.slots, id)
  {
    hide WellFormed, Answer, Booted;
  }

  lemma RunThree(r: Registry, a: Op, b: Op, c: Op)
    ensures Run(r, [a, b, c]) == Apply(Apply(Apply(r, a), b), c)
  {
    hide Apply;
    assert [a, b, c][..2] == [a, b] && [a, b][..1] == [a] && [a][..0] == [];
    assert Run(r, []) == r && Run(r, [a]) == Apply(r, a) && Run(r, [a, b]) == Apply(Apply(r, a), b);
  }

  lemma ListedIsReachable(s: seq<Entry>, id: u32, peers: seq<Peer>)
    ensures Listed(s, id) ==> Reachable(s, id, peers)
  {
  }

  /** A well-formed table; a node that is admitted is in it. */
  lemma AnsweredIsListed(r: Registry, id: u32)
    requires WellFormed(r)
    ensures Distinct(r.slots) && (Answer(r.slots, id).state >= 1 ==> Listed(r.slots, id))
  {
    ListedIsFound(r.slots, id);
    hide Find, Distinct;
  }

  // ---------------------------------------------------------------------------
  // Replacement
  // ---------------------------------------------------------------------------

  /**
   * A replacement needs the old node in the table, and the new one there or a free slot. The new node then
   * has the old one's admission, its texts cut to 23 characters, and the old one none, whether or not the
   * save succeeds, and no other node's admission changes; in any other case nothing changes.
   */
  lemma ReplacementMeans(r: Registry, oldId: u32, newId: u32, saved: bool, q: u32)
    requires WellFormed(r)
    ensures var n, a := Replaced(r, oldId, newId, saved), Answer(r.slots, oldId);
            if oldId != 0 && newId != 0 && oldId != newId && Listed(r.slots, oldId) &&
               (Listed(r.slots, newId) || Listed(r.slots, 0))
            then Answer(n.slots, q) ==
                   if q == newId then Admission(a.state, if |a.profile| <= 23 then a.profile else a.profile[..23],
                                                if |a.template| <= 23 then a.template else a.template[..23])
                   else if q == oldId then Admission(0, "", "") else Answer(r.slots, q)
            else n == r
  {
    ReplaceStep(r, oldId, newId, saved);
    ListedIsFound(r.slots, oldId);
    ListedIsFound(r.slots, newId);
    ListedIsFound(r.slots, 0);
    hide Find, Listed, Answer, WellFormed, Transparent, Harmless, Replacing;
  }

  // ---------------------------------------------------------------------------
  // What is shown
  // ---------------------------------------------------------------------------

  /**
   * A note of a node's transport shows its address and transport, where the note has them, in its own slot
   * or in a new one; a node without either finds no room, and is dropped. Nothing else is touched.
   */
  lemma NoteShows(s: seq<Entry>, id: u32, transport: u8, ip: u32, k: nat)
    requires Distinct(s) && k < |s|
    ensures var t := Noted(s, id, transport, ip);
            && |t| == |s|
            && (s[k].id != id && s[k].id != 0 ==> t[k] == s[k])
            && (id == 0 || (!Listed(s, id) && !Listed(s, 0)) ==> t == s)
            && (id != 0 && (Listed(s, id) || Listed(s, 0)) ==> Listed(t, id))
            && (t[k].id == id && id != 0 ==>
                  var e := if s[k].id == id then s[k] else Entry(id, 0, 0, 0, 0, 0, 0, 0, 0, 0, "", "");
                  var known := if transport == 1 then 1 else if transport == 2 then 2 else if transport == 3 then 3
                               else if transport == 5 then 4 else e.transport;
                  && ShowsReason(t[k])
                  && t[k] == e.(ip := if ip == 0 then e.ip else ip, transport := known, reason := t[k].reason))
  {
    ListedIsFound(s, id);
    ListedIsFound(s, 0);
    var t := Noted(s, id, transport, ip);
    if id != 0 && SlotFor(s, id) < |s| {
      SlotMeans(s, id);
      hide Find, Listed;
      assert t[SlotFor(s, id)].id == id;
      assert k != SlotFor(s, id) ==> t[k] == s[k];
      assert Listed(t, id) by { ListedAt(t, SlotFor(s, id)); }
      assert s[SlotFor(s, id)].id == id ==> (s[k].id == id ==> k == SlotFor(s, id));
    } else {
      assert t == s;
      hide Find;
    }
  }

  lemma ListedAt(s: seq<Entry>, k: nat)
    requires k < |s|
    ensures Listed(s, s[k].id)
  {
  }

  /** Below one clock wrap since the last synchronization, another is made a second after it at the earliest. */
  lemma SyncIsDue(r: Registry, ran: nat, at: nat, peers: seq<Peer>, self: u32)
    requires r.lastSync == Low32(ran) && ran <= at < ran + TWO32
    ensures var n := Synchronized(r, Low32(at), peers, self);
            && n.flash == r.flash
            && (if at - ran < 1000 then n == r else n.lastSync == Low32(at))
  {
    ElapsedBound(at, ran);
    hide TrackedAll, ResetAll, SelfMarked;
  }

  // ---------------------------------------------------------------------------
  // Flash
  // ---------------------------------------------------------------------------

  /** An entry as a boot leaves it: known by address and transport, but silent. */
  predicate Silent(e: Entry, kept: Entry) {
    && ShowsReason(e)
    && e == kept.(age := 0, lastSeen := 0, health := 0, cluster := 2, reason := e.reason, caps := 15)
  }

  /** The blob holds exactly the entries that an administrator has touched, as a boot is to leave them. */
  lemma {:induction false} BlobHolds(s: seq<Entry>, e: Entry)
    ensures e in BuildBlob(s) <==>
            exists k :: 0 <= k < |s| && s[k].id != 0 && Silent(e, s[k]) &&
                        (s[k].state != 0 || s[k].profile != "" || s[k].template != "")
  {
    if s != [] {
      BlobHolds(s[1..], e);
      ResetIsSilent(s[0], e);
      hide Silent, ResetRuntime;
      assert forall k :: 0 < k < |s| ==> s[1..][k - 1] == s[k];
      if e in BuildBlob(s[1..]) {
        var k :| 0 <= k < |s[1..]| && s[1..][k].id != 0 && Silent(e, s[1..][k]) &&
                 (s[1..][k].state != 0 || s[1..][k].profile != "" || s[1..][k].template != "");
        assert Silent(e, s[k + 1]);
      }
    }
  }

  lemma ResetIsSilent(x: Entry, e: Entry)
    ensures x.id != 0 ==> (e == ResetRuntime(x) <==> Silent(e, x))
  {
  }

  /** A boot shows every node of the flash in its slot, silent, and the other slots free. */
  lemma BootShows(b: seq<Entry>, k: nat)
    requires |b| <= 10 && k < 10
    ensures var s := Booted(Current(b));
            |s| == 10 && (if k >= |b| then s[k].id == 0 else if b[k].id == 0 then s[k] == b[k] else Silent(s[k], b[k]))
  {
    if k < |b| && b[k].id != 0 { ResetIsSilent(b[k], ResetRuntime(b[k])); }
    hide ResetRuntime, Silent;
  }

  /** A blob of the first layout boots to the admissions it holds, with their texts shortened to fit. */
  lemma LegacyBoots(b: seq<LegacyEntry>, k: nat)
    requires |b| <= 10 && k < |b| && b[k].id != 0
    requires forall i, j :: 0 <= i < j < |b| && b[i].id != 0 ==> b[i].id != b[j].id
    ensures Answer(Booted(Legacy(b)), b[k].id) == Admission(b[k].state, CopyText(b[k].profile), CopyText(b[k].template))
  {
    var m := MigrateAll(b);
    assert BlobOf(Legacy(b)) == m && Distinct(m) && m[k].id == b[k].id;
    BootAnswers(Legacy(b), b[k].id);
    AnswerMeans(m, b[k].id);
    hide Booted, Answer, MigrateAll, CopyText;
  }

  /** A blob with more entries than slots, or one that cannot be loaded, boots to an empty table. */
  lemma OthersBootEmpty(f: Flash, k: nat)
    requires f.Blank? || (f.Current? && |f.entries| > 10) || (f.Legacy? && |f.entriesV1| > 10)
    requires k < 10
    ensures Booted(f)[k].id == 0
  {
  }
}
