/** Which dumps get through the smoke check, in bytes and texts. */
module PipelineGate {
  import opened Prelude
  import opened Frames
  import opened Pipeline
  import opened PipelineTheorems

  /** b is the character c, or the same letter in the other case. */
  predicate SameLetter(b: byte, c: char) {
    || b == c as int
    || ('A' <= c <= 'Z' && b == c as int + 32)
    || ('a' <= c <= 'z' && b == c as int - 32)
  }

  predicate Begins(data: Bytes, text: string) {
    |text| <= |data| && forall i | 0 <= i < |text| :: SameLetter(data[i], text[i])
  }

  // ---- pg_dump -------------------------------------------------------------------------------

  lemma PgDumpHead(data: Bytes)
    ensures GatePass(PgDump, data) <==>
      |data| >= 5 && data[0] == 80 && data[1] == 71 && data[2] == 68 && data[3] == 77 && data[4] == 80
  {
    var head := data[..Min(5, |data|)];
    if |data| >= 5 {
      assert head == [data[0], data[1], data[2], data[3], data[4]];
    }
  }

  /** A pg_dump backup can complete exactly when pg_dump succeeds and its output begins with PGDMP. */
  lemma PgDumpCompletesExactlyWhen(cfg: Config)
    requires cfg.Valid() && cfg.driver.PgDump?
    ensures (exists run, s :: Reached(cfg, run, s) && s.ret == Some(Completed(cfg.Blob()))) <==>
      && cfg.ending.None? && |cfg.data| >= 5
      && cfg.data[0] == 80 && cfg.data[1] == 71 && cfg.data[2] == 68 && cfg.data[3] == 77 && cfg.data[4] == 80
  {
    PgDumpHead(cfg.data);
    CompletesExactlyWhen(cfg);
  }

  // ---- mysqldump ---------------------------------------------------------------------------------

  lemma FoldedBanner(data: Bytes, banner: Bytes, text: string)
    requires |banner| == |text| <= 32
    requires forall i | 0 <= i < |text| ::
      banner[i] == if 'A' <= text[i] <= 'Z' then text[i] as int + 32 else text[i] as int
    ensures HasPrefixFold(data[..Min(32, |data|)], banner) <==> Begins(data, text)
  {
    var head := data[..Min(32, |data|)];
    forall i | 0 <= i < |text| && i < |data| ensures Lower(head[i]) == banner[i] <==> SameLetter(data[i], text[i]) {
    }
  }

  lemma Banner0(data: Bytes)
    ensures HasPrefixFold(data[..Min(32, |data|)], BANNERS[0]) <==> Begins(data, "-- MySQL dump")
  {
    FoldedBanner(data, BANNERS[0], "-- MySQL dump");
  }

  lemma Banner1(data: Bytes)
    ensures HasPrefixFold(data[..Min(32, |data|)], BANNERS[1]) <==> Begins(data, "-- MariaDB dump")
  {
    FoldedBanner(data, BANNERS[1], "-- MariaDB dump");
  }

  lemma Banner2(data: Bytes)
    ensures HasPrefixFold(data[..Min(32, |data|)], BANNERS[2]) <==> Begins(data, "-- mysqldump")
  {
    FoldedBanner(data, BANNERS[2], "-- mysqldump");
  }

  lemma Banner3(data: Bytes)
    ensures HasPrefixFold(data[..Min(32, |data|)], BANNERS[3]) <==> Begins(data, "-- mariadb-dump")
  {
    FoldedBanner(data, BANNERS[3], "-- mariadb-dump");
  }

  lemma SomeBanner(head: Bytes)
    ensures HeadOk(Mysqldump, head) <==>
      || HasPrefixFold(head, BANNERS[0]) || HasPrefixFold(head, BANNERS[1])
      || HasPrefixFold(head, BANNERS[2]) || HasPrefixFold(head, BANNERS[3])
  {
    assert |BANNERS| == 4;
  }

  lemma MysqldumpHead(data: Bytes)
    ensures GatePass(Mysqldump, data) <==>
      || Begins(data, "-- MySQL dump") || Begins(data, "-- MariaDB dump")
      || Begins(data, "-- mysqldump") || Begins(data, "-- mariadb-dump")
  {
    SomeBanner(data[..Min(32, |data|)]);
    Banner0(data);
    Banner1(data);
    Banner2(data);
    Banner3(data);
  }

  /**
   A mysqldump backup can complete exactly when mysqldump succeeds and its output begins, in
   any letter case, with one of the four banners, however short it is beyond that.
   */
  lemma MysqldumpCompletesExactlyWhen(cfg: Config)
    requires cfg.Valid() && cfg.driver.Mysqldump?
    ensures (exists run, s :: Reached(cfg, run, s) && s.ret == Some(Completed(cfg.Blob()))) <==>
      && cfg.ending.None?
      && (|| Begins(cfg.data, "-- MySQL dump") || Begins(cfg.data, "-- MariaDB dump")
          || Begins(cfg.data, "-- mysqldump") || Begins(cfg.data, "-- mariadb-dump"))
  {
    MysqldumpHead(cfg.data);
    CompletesExactlyWhen(cfg);
  }

  /** The bare banner, shorter than what the check peeks at, is enough. */
  lemma BannerAloneCompletes(cfg: Config)
    requires cfg.Valid() && cfg.driver.Mysqldump? && cfg.ending.None?
    requires cfg.data == [45, 45, 32, 77, 121, 83, 81, 76, 32, 100, 117, 109, 112]
    ensures exists run, s :: Reached(cfg, run, s) && s.ret == Some(Completed(cfg.Blob()))
  {
    assert Begins(cfg.data, "-- MySQL dump");
    MysqldumpCompletesExactlyWhen(cfg);
  }

  // ---- the others, and refusals --------------------------------------------------------------------

  /** Other drivers' output is not looked at. */
  lemma OthersCompleteExactlyWhen(cfg: Config)
    requires cfg.Valid() && cfg.driver.OtherDriver?
    ensures (exists run, s :: Reached(cfg, run, s) && s.ret == Some(Completed(cfg.Blob()))) <==> cfg.ending.None?
  {
    CompletesExactlyWhen(cfg);
  }

  /** A successful dump with a wrong head is never uploaded, not even in part. */
  lemma WrongHeadNeverUploads(cfg: Config, run: seq<Action>, s: State)
    requires cfg.Valid() && cfg.ending.None? && Reached(cfg, run, s)
    requires cfg.driver.PgDump? ==>
      |cfg.data| < 5
      || cfg.data[0] != 80 || cfg.data[1] != 71 || cfg.data[2] != 68 || cfg.data[3] != 77 || cfg.data[4] != 80
    requires cfg.driver.Mysqldump? ==>
      && !Begins(cfg.data, "-- MySQL dump") && !Begins(cfg.data, "-- MariaDB dump")
      && !Begins(cfg.data, "-- mysqldump") && !Begins(cfg.data, "-- mariadb-dump")
    requires !cfg.driver.OtherDriver?
    ensures s.put.None?
  {
    PgDumpHead(cfg.data);
    MysqldumpHead(cfg.data);
    UploadsExactlyWhen(cfg);
  }
}
