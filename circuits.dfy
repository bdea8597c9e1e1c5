// The three built-in circuits. Their segment tables are data; what the
// model records about them is that the segments are laid end to end and
// that the lap length the integrators use (the sum of the segment lengths)
// is not the declared circuit length.

module Circuits {
  import opened Common
  import opened Tracks

  method CreateSilverstone() returns (t: Track)
    ensures fresh(t) && t.Valid()
    ensures t.name == "Silverstone Circuit" && t.recordLapTime == 87.097
    ensures |t.segments| == 19
    ensures t.totalLength == 5171.0 && t.length == 5891.0
  {
    t := new Track("Silverstone Circuit", 5891.0, 87.097, "Lewis Hamilton (Mercedes)", 2020);
    t.AddSegment("Abbey", 250.0, Corner(100.0), "fast_corner", None, 0.0, 0.0, false);
    t.AddSegment("Farm Straight", 400.0, Straight, "straight", None, 0.0, 0.0, false);
    t.AddSegment("Village", 80.0, Corner(35.0), "chicane", None, 0.0, 0.0, false);
    t.AddSegment("The Loop", 150.0, Corner(80.0), "medium_corner", None, 0.0, 0.0, false);
    t.AddSegment("Aintree", 120.0, Corner(60.0), "medium_corner", None, 0.0, 0.0, false);
    t.AddSegment("Wellington Straight", 650.0, Straight, "straight", None, 0.0, 0.0, false);
    t.AddSegment("Brooklands", 120.0, Corner(90.0), "fast_corner", None, 0.0, 0.0, false);
    t.AddSegment("Luffield", 140.0, Corner(40.0), "slow_corner", None, 0.0, 0.0, false);
    t.AddSegment("Woodcote", 180.0, Corner(80.0), "medium_corner", None, 0.0, 0.0, false);
    t.AddSegment("Copse", 160.0, Corner(120.0), "fast_corner", None, 0.0, 0.0, false);
    t.AddSegment("Maggots", 140.0, Corner(150.0), "fast_corner", None, 0.0, 0.0, false);
    t.AddSegment("Becketts", 180.0, Corner(100.0), "fast_corner", None, 0.0, 0.0, false);
    t.AddSegment("Chapel", 120.0, Corner(90.0), "fast_corner", None, 0.0, 0.0, false);
    t.AddSegment("Hangar Straight", 1100.0, Straight, "straight", None, 0.0, 0.0, false);
    t.AddSegment("Stowe", 140.0, Corner(70.0), "medium_corner", None, 0.0, 0.0, false);
    t.AddSegment("Vale", 180.0, Corner(50.0), "medium_corner", None, 0.0, 0.0, false);
    t.AddSegment("Club", 160.0, Corner(60.0), "medium_corner", None, 0.0, 0.0, false);
    t.AddSegment("Abbey Approach", 600.0, Straight, "straight", None, 0.0, 0.0, false);
    t.AddSegment("Start/Finish", 301.0, Straight, "straight", None, 0.0, 0.0, false);
  }

  method CreateMonaco() returns (t: Track)
    ensures fresh(t) && t.Valid()
    ensures t.name == "Circuit de Monaco" && t.recordLapTime == 70.166
    ensures |t.segments| == 14
    ensures t.totalLength == 2537.0 && t.length == 3337.0
  {
    t := new Track("Circuit de Monaco", 3337.0, 70.166, "Lewis Hamilton (Mercedes)", 2019);
    t.AddSegment("Sainte Devote", 100.0, Corner(25.0), "slow_corner", None, 0.0, 0.0, false);
    t.AddSegment("Beau Rivage", 250.0, Straight, "straight", None, 0.0, 0.0, false);
    t.AddSegment("Massenet", 90.0, Corner(30.0), "slow_corner", None, 0.0, 0.0, false);
    t.AddSegment("Casino", 110.0, Corner(35.0), "slow_corner", None, 0.0, 0.0, false);
    t.AddSegment("Mirabeau", 80.0, Corner(18.0), "slow_corner", None, 0.0, 0.0, false);
    t.AddSegment("Station Hairpin", 120.0, Corner(15.0), "slow_corner", None, 0.0, 0.0, false);
    t.AddSegment("Portier", 140.0, Corner(40.0), "medium_corner", None, 0.0, 0.0, false);
    t.AddSegment("Tunnel", 400.0, Straight, "straight", None, 0.0, 0.0, false);
    t.AddSegment("Nouvelle Chicane", 100.0, Corner(25.0), "chicane", None, 0.0, 0.0, false);
    t.AddSegment("Tabac", 120.0, Corner(35.0), "slow_corner", None, 0.0, 0.0, false);
    t.AddSegment("Swimming Pool", 180.0, Corner(30.0), "chicane", None, 0.0, 0.0, false);
    t.AddSegment("La Rascasse", 140.0, Corner(20.0), "slow_corner", None, 0.0, 0.0, false);
    t.AddSegment("Anthony Noghes", 110.0, Corner(28.0), "slow_corner", None, 0.0, 0.0, false);
    t.AddSegment("Start Straight", 597.0, Straight, "straight", None, 0.0, 0.0, false);
  }

  method CreateSpa() returns (t: Track)
    ensures fresh(t) && t.Valid()
    ensures t.name == "Spa-Francorchamps" && t.recordLapTime == 106.286
    ensures |t.segments| == 15
    ensures t.totalLength == 4124.0 && t.length == 7004.0
  {
    t := new Track("Spa-Francorchamps", 7004.0, 106.286, "Valtteri Bottas (Mercedes)", 2018);
    t.AddSegment("La Source", 120.0, Corner(30.0), "slow_corner", None, 0.0, 0.0, false);
    t.AddSegment("Eau Rouge", 180.0, Corner(250.0), "fast_corner", None, 0.0, 0.0, false);
    t.AddSegment("Raidillon", 140.0, Corner(200.0), "fast_corner", None, 0.0, 0.0, false);
    t.AddSegment("Kemmel Straight", 800.0, Straight, "straight", None, 0.0, 0.0, false);
    t.AddSegment("Les Combes", 160.0, Corner(50.0), "chicane", None, 0.0, 0.0, false);
    t.AddSegment("Malmedy", 200.0, Corner(100.0), "fast_corner", None, 0.0, 0.0, false);
    t.AddSegment("Rivage", 140.0, Corner(45.0), "medium_corner", None, 0.0, 0.0, false);
    t.AddSegment("Speaker\'s Corner", 180.0, Corner(60.0), "medium_corner", None, 0.0, 0.0, false);
    t.AddSegment("Bruxelles", 220.0, Straight, "straight", None, 0.0, 0.0, false);
    t.AddSegment("Pouhon", 200.0, Corner(120.0), "fast_corner", None, 0.0, 0.0, false);
    t.AddSegment("Campus", 450.0, Straight, "straight", None, 0.0, 0.0, false);
    t.AddSegment("Stavelot", 160.0, Corner(80.0), "fast_corner", None, 0.0, 0.0, false);
    t.AddSegment("Blanchimont", 300.0, Corner(200.0), "fast_corner", None, 0.0, 0.0, false);
    t.AddSegment("Chicane", 150.0, Corner(40.0), "chicane", None, 0.0, 0.0, false);
    t.AddSegment("Start Straight", 724.0, Straight, "straight", None, 0.0, 0.0, false);
  }
}
