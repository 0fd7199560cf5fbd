/**
 * League classification: an ordered table of case-insensitive substring
 * keys, searched first match wins, with a Pixelsports default.
 */
module League {
  import opened Text
  import opened Config

  /** What a league contributes to an entry: program-guide id, logo, group name. */
  datatype LeagueInfo = LeagueInfo(tvgId: string, logo: string, group: string)

  /** One row of the table: the key searched for and the league it selects. */
  datatype LeagueRule = LeagueRule(key: string, info: LeagueInfo)

  /** The league table, in the order it is searched. */
  const LeagueTable: seq<LeagueRule> := [
    LeagueRule("NFL", LeagueInfo("NFL.Dummy.us", "http://drewlive24.duckdns.org:9000/Logos/Maxx.png", "NFL")),
    LeagueRule("MLB", LeagueInfo("MLB.Baseball.Dummy.us", "http://drewlive24.duckdns.org:9000/Logos/Baseball3.png", "MLB")),
    LeagueRule("NHL", LeagueInfo("NHL.Hockey.Dummy.us", "http://drewlive24.duckdns.org:9000/Logos/Hockey2.png", "NHL")),
    LeagueRule("NBA", LeagueInfo("NBA.Basketball.Dummy.us", "http://drewlive24.duckdns.org:9000/Logos/Basketball-2.png", "NBA")),
    LeagueRule("NASCAR", LeagueInfo("Racing.Dummy.us", "http://drewlive24.duckdns.org:9000/Logos/Motorsports2.png", "NASCAR")),
    LeagueRule("UFC", LeagueInfo("UFC.Fight.Pass.Dummy.us", "http://drewlive24.duckdns.org:9000/Logos/CombatSports2.png", "UFC")),
    LeagueRule("SOCCER", LeagueInfo("Soccer.Dummy.us", "http://drewlive24.duckdns.org:9000/Logos/Soccer.png", "Soccer")),
    LeagueRule("BOXING", LeagueInfo("PPV.EVENTS.Dummy.us", "http://drewlive24.duckdns.org:9000/Logos/Combat-Sports.png", "Boxing"))
  ]

  /** The identity used when no key matches. */
  const DefaultLeague: LeagueInfo := LeagueInfo("Pixelsports.Dummy.us", LiveTvLogo, "Pixelsports")

  /** A rule matches when its lower-cased key occurs in the lower-cased name. */
  predicate Matches(rule: LeagueRule, name: string) {
    Contains(Lower(name), Lower(rule.key))
  }

  /**
   * First-match search: the league of the earliest matching rule, or the
   * default when none matches.
   */
  function FirstMatch(rules: seq<LeagueRule>, name: string): LeagueInfo {
    if rules == [] then DefaultLeague
    else if Matches(rules[0], name) then rules[0].info
    else FirstMatch(rules[1..], name)
  }

  /**
   * The search returns the league of the earliest matching rule: the
   * default when no rule matches, otherwise the league of a rule that
   * matches and is preceded by no matching rule.
   */
  lemma {:induction false} FirstMatchSpec(rules: seq<LeagueRule>, name: string)
    ensures var r := FirstMatch(rules, name);
      && ((forall k :: 0 <= k < |rules| ==> !Matches(rules[k], name)) ==> r == DefaultLeague)
      && (forall k :: 0 <= k < |rules| && Matches(rules[k], name)
                      && (forall j :: 0 <= j < k ==> !Matches(rules[j], name))
                      ==> r == rules[k].info)
      && ((exists k :: 0 <= k < |rules| && Matches(rules[k], name)) ==>
            exists k :: 0 <= k < |rules| && Matches(rules[k], name) && r == rules[k].info)
  {
    if rules != [] {
      FirstMatchSpec(rules[1..], name);
      if !Matches(rules[0], name) {
        forall k | 0 < k < |rules| && Matches(rules[k], name)
          ensures Matches(rules[1..][k - 1], name)
        {
        }
      }
    }
  }

  /** `get_league_info(name)`: classify `name` against the league table. */
  function GetLeagueInfo(name: string): LeagueInfo {
    FirstMatch(LeagueTable, name)
  }

  /** No league of the table is the default identity. */
  lemma TableAvoidsDefault()
    ensures forall k :: 0 <= k < |LeagueTable| ==> LeagueTable[k].info.tvgId != DefaultLeague.tvgId
  {
  }

  /**
   * Over any rules whose leagues differ from the default, the default comes
   * back exactly when no rule matches.
   */
  lemma DefaultIffNoMatchIn(rules: seq<LeagueRule>, name: string)
    requires forall k :: 0 <= k < |rules| ==> rules[k].info.tvgId != DefaultLeague.tvgId
    ensures FirstMatch(rules, name) == DefaultLeague <==>
      forall k :: 0 <= k < |rules| ==> !Matches(rules[k], name)
  {
    FirstMatchSpec(rules, name);
  }

  /** The default identity comes back exactly when no key of the table occurs in the name. */
  lemma DefaultIffNoMatch(name: string)
    ensures GetLeagueInfo(name) == DefaultLeague <==>
      forall k :: 0 <= k < |LeagueTable| ==> !Matches(LeagueTable[k], name)
  {
    TableAvoidsDefault();
    DefaultIffNoMatchIn(LeagueTable, name);
  }

  /** Every classification is the default or a league of the table. */
  lemma ClassificationIsTabled(name: string)
    ensures GetLeagueInfo(name) == DefaultLeague
         || exists k :: 0 <= k < |LeagueTable| && GetLeagueInfo(name) == LeagueTable[k].info
  {
    FirstMatchSpec(LeagueTable, name);
  }

  /** No classification of an event carries the live-channel program-guide id. */
  lemma ClassificationIsNotLiveTv(name: string)
    ensures GetLeagueInfo(name).tvgId != LiveTvId
  {
    ClassificationIsTabled(name);
    assert forall k :: 0 <= k < |LeagueTable| ==> LeagueTable[k].info.tvgId != LiveTvId;
  }

  /** Table order, not position in the name, decides: any name containing "nfl" in any case is NFL. */
  lemma NflWinsOverLaterKeys(name: string)
    requires Contains(Lower(name), "nfl")
    ensures GetLeagueInfo(name) == LeagueInfo("NFL.Dummy.us", "http://drewlive24.duckdns.org:9000/Logos/Maxx.png", "NFL")
  {
    assert Lower("NFL") == ['n', 'f', 'l'];
    assert Matches(LeagueTable[0], name);
  }

  /** A name mentioning both NBA and NFL is classified as NFL, the earlier table entry. */
  lemma NbaAndNflExample()
    ensures GetLeagueInfo("NBA and NFL Sunday").group == "NFL"
  {
    var s := Lower("NBA and NFL Sunday");
    assert MatchFrom(s, "nfl", 8, 0);
    assert ContainsFrom(s, "nfl", 8);
    assert ContainsFrom(s, "nfl", 4);
    NflWinsOverLaterKeys("NBA and NFL Sunday");
  }

  /** "NHL Western Conference" is hockey: neither "nfl" nor "mlb" occurs in it, "nhl" does. */
  lemma NhlExample()
    ensures GetLeagueInfo("NHL Western Conference") ==
      LeagueInfo("NHL.Hockey.Dummy.us", "http://drewlive24.duckdns.org:9000/Logos/Hockey2.png", "NHL")
  {
    var s := Lower("NHL Western Conference");
    assert !ContainsFrom(s, Lower("NFL"), 19);
    assert !ContainsFrom(s, Lower("NFL"), 16);
    assert !ContainsFrom(s, Lower("NFL"), 13);
    assert !ContainsFrom(s, Lower("NFL"), 10);
    assert !ContainsFrom(s, Lower("NFL"), 7);
    assert !ContainsFrom(s, Lower("NFL"), 4);
    assert !ContainsFrom(s, Lower("NFL"), 1);
    assert !Matches(LeagueTable[0], "NHL Western Conference");
    assert !ContainsFrom(s, Lower("MLB"), 19);
    assert !ContainsFrom(s, Lower("MLB"), 16);
    assert !ContainsFrom(s, Lower("MLB"), 13);
    assert !ContainsFrom(s, Lower("MLB"), 10);
    assert !ContainsFrom(s, Lower("MLB"), 7);
    assert !ContainsFrom(s, Lower("MLB"), 4);
    assert !ContainsFrom(s, Lower("MLB"), 1);
    assert !Matches(LeagueTable[1], "NHL Western Conference");
    assert Matches(LeagueTable[2], "NHL Western Conference");
  }

  /** The events feed's default league name "Sports" matches no key and gets the default identity. */
  lemma SportsIsDefault()
    ensures GetLeagueInfo("Sports") == DefaultLeague
  {
    assert !Matches(LeagueTable[0], "Sports");
    assert !Matches(LeagueTable[1], "Sports");
    assert !Matches(LeagueTable[2], "Sports");
    assert !Matches(LeagueTable[3], "Sports");
    assert !Matches(LeagueTable[4], "Sports");
    assert !Matches(LeagueTable[5], "Sports");
    assert !Matches(LeagueTable[6], "Sports");
    assert !Matches(LeagueTable[7], "Sports");
    FirstMatchSpec(LeagueTable, "Sports");
  }

  /** A name that mentions no league gets the default identity. */
  lemma UnknownLeagueIsDefault()
    ensures GetLeagueInfo("Unknown League") == DefaultLeague
  {
    UnknownLeagueMissesShortKeys();
    UnknownLeagueMissesLongKeys();
    FirstMatchSpec(LeagueTable, "Unknown League");
  }

  // The scans below are unfolded a few positions at a time so that the
  // solver evaluates them on the literal name.

  lemma UnknownLeagueMissesShortKeys()
    ensures forall k :: 0 <= k < 4 || k == 5 ==> !Matches(LeagueTable[k], "Unknown League")
  {
    var s := Lower("Unknown League");
    assert !ContainsFrom(s, Lower("NFL"), 10);
    assert !ContainsFrom(s, Lower("NFL"), 7);
    assert !ContainsFrom(s, Lower("NFL"), 4);
    assert !ContainsFrom(s, Lower("NFL"), 1);
    assert !Matches(LeagueTable[0], "Unknown League");
    assert !ContainsFrom(s, Lower("MLB"), 10);
    assert !ContainsFrom(s, Lower("MLB"), 7);
    assert !ContainsFrom(s, Lower("MLB"), 4);
    assert !ContainsFrom(s, Lower("MLB"), 1);
    assert !Matches(LeagueTable[1], "Unknown League");
    assert !ContainsFrom(s, Lower("NHL"), 10);
    assert !ContainsFrom(s, Lower("NHL"), 7);
    assert !ContainsFrom(s, Lower("NHL"), 4);
    assert !ContainsFrom(s, Lower("NHL"), 1);
    assert !Matches(LeagueTable[2], "Unknown League");
    assert !ContainsFrom(s, Lower("NBA"), 10);
    assert !ContainsFrom(s, Lower("NBA"), 7);
    assert !ContainsFrom(s, Lower("NBA"), 4);
    assert !ContainsFrom(s, Lower("NBA"), 1);
    assert !Matches(LeagueTable[3], "Unknown League");
    assert !ContainsFrom(s, Lower("UFC"), 10);
    assert !ContainsFrom(s, Lower("UFC"), 7);
    assert !ContainsFrom(s, Lower("UFC"), 4);
    assert !ContainsFrom(s, Lower("UFC"), 1);
    assert !Matches(LeagueTable[5], "Unknown League");
  }

  lemma UnknownLeagueMissesLongKeys()
    ensures forall k :: k == 4 || 6 <= k < 8 ==> !Matches(LeagueTable[k], "Unknown League")
  {
    var s := Lower("Unknown League");
    assert !ContainsFrom(s, Lower("NASCAR"), 7);
    assert !ContainsFrom(s, Lower("NASCAR"), 4);
    assert !ContainsFrom(s, Lower("NASCAR"), 1);
    assert !Matches(LeagueTable[4], "Unknown League");
    assert !ContainsFrom(s, Lower("SOCCER"), 7);
    assert !ContainsFrom(s, Lower("SOCCER"), 4);
    assert !ContainsFrom(s, Lower("SOCCER"), 1);
    assert !Matches(LeagueTable[6], "Unknown League");
    assert !ContainsFrom(s, Lower("BOXING"), 7);
    assert !ContainsFrom(s, Lower("BOXING"), 4);
    assert !ContainsFrom(s, Lower("BOXING"), 1);
    assert !Matches(LeagueTable[7], "Unknown League");
  }
}
