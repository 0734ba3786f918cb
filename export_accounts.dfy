// The script that writes the stores' login details to one text file per
// region: Đồng Nai, Bình Dương and Ho Chi Minh City.
module ExportAccounts {
  import opened Wrappers
  import opened Lists
  import opened Text
  import opened MenuModel
  import opened Accounts

  // ---------------------------------------------------------------------
  // Regions
  // ---------------------------------------------------------------------

  datatype Region = DongNai | BinhDuong | HoChiMinh

  /** The region test exactly as the loop writes it: three tests on the
    * lower-cased address (and name), then a second look at the name alone,
    * then Ho Chi Minh City by default. */
  function RegionAsWritten(address: string, name: string): Region
  {
    var a := Lower(address);
    var n := Lower(name);
    if Contains(a, "biên hòa") || Contains(a, "đồng nai") || Contains(n, "biên hòa") then DongNai
    else if Contains(a, "bình dương") || Contains(a, "thủ dầu một") || Contains(n, "bình dương") then BinhDuong
    else if Contains(a, "tp.hcm") || Contains(a, "hồ chí minh") || Contains(a, "tphcm") || Contains(a, "quận") then HoChiMinh
    else if Contains(n, "biên hòa") then DongNai
    else if Contains(n, "bình dương") then BinhDuong
    else if Contains(n, "tp.hcm") || Contains(n, "tphcm") then HoChiMinh
    else HoChiMinh
  }

  predicate DongNaiSigns(address: string, name: string)
  {
    Contains(Lower(address), "biên hòa") || Contains(Lower(address), "đồng nai") || Contains(Lower(name), "biên hòa")
  }

  predicate BinhDuongSigns(address: string, name: string)
  {
    Contains(Lower(address), "bình dương") || Contains(Lower(address), "thủ dầu một") || Contains(Lower(name), "bình dương")
  }

  /** The region a store belongs to: Đồng Nai when its address or name
    * says so, else Bình Dương when they say so, else Ho Chi Minh City. */
  function RegionOf(m: Merchant): Region
  {
    if DongNaiSigns(m.address, m.name) then DongNai
    else if BinhDuongSigns(m.address, m.name) then BinhDuong
    else HoChiMinh
  }

  /** The loop's chain of tests decides the same region as the three-way
    * rule: the second look at the name can never pick Đồng Nai or Bình
    * Dương, because the first two tests already looked at the name. */
  lemma RegionAsWrittenIsRegionOf(m: Merchant)
    ensures RegionAsWritten(m.address, m.name) == RegionOf(m)
  {
  }

  // ---------------------------------------------------------------------
  // The partition
  // ---------------------------------------------------------------------

  /** The ids of `queue` whose store lies in `r`, in queue order. */
  function InRegion(merchants: map<int, Merchant>, queue: seq<int>, r: Region): (ids: seq<int>)
    requires forall k :: 0 <= k < |queue| ==> queue[k] in merchants
    ensures |ids| <= |queue|
    decreases |queue|
  {
    if |queue| == 0 then []
    else
      var last := queue[|queue| - 1];
      InRegion(merchants, queue[..|queue| - 1], r) + (if RegionOf(merchants[last]) == r then [last] else [])
  }

  /** Every store lands in exactly one region, so the three lists together
    * are as long as the queue. */
  lemma {:induction false} PartitionCount(merchants: map<int, Merchant>, queue: seq<int>)
    requires forall k :: 0 <= k < |queue| ==> queue[k] in merchants
    ensures |InRegion(merchants, queue, DongNai)| + |InRegion(merchants, queue, BinhDuong)|
            + |InRegion(merchants, queue, HoChiMinh)| == |queue|
    decreases |queue|
  {
    if |queue| > 0 {
      PartitionCount(merchants, queue[..|queue| - 1]);
    }
  }

  /** A region's list holds exactly the queued stores of that region. */
  lemma {:induction false} InRegionMembers(merchants: map<int, Merchant>, queue: seq<int>, r: Region)
    requires forall k :: 0 <= k < |queue| ==> queue[k] in merchants
    ensures forall id :: id in InRegion(merchants, queue, r) <==> id in queue && RegionOf(merchants[id]) == r
    decreases |queue|
  {
    if |queue| > 0 {
      var init := queue[..|queue| - 1];
      InRegionMembers(merchants, init, r);
      assert queue == init + [queue[|queue| - 1]];
    }
  }

  predicate Increasing(s: seq<int>)
  {
    forall i, j :: 0 <= i < j < |s| ==> s[i] < s[j]
  }

  /** The query orders by id, and each region's list keeps that order. */
  lemma {:induction false} InRegionIncreasing(merchants: map<int, Merchant>, queue: seq<int>, r: Region)
    requires forall k :: 0 <= k < |queue| ==> queue[k] in merchants
    requires Increasing(queue)
    ensures Increasing(InRegion(merchants, queue, r))
    decreases |queue|
  {
    if |queue| > 0 {
      var init := queue[..|queue| - 1];
      var last := queue[|queue| - 1];
      InRegionIncreasing(merchants, init, r);
      InRegionMembers(merchants, init, r);
      var prev := InRegion(merchants, init, r);
      forall i | 0 <= i < |prev| ensures prev[i] < last {
        assert prev[i] in prev;
        var j :| 0 <= j < |init| && init[j] == prev[i];
        assert init[j] == queue[j];
      }
    }
  }

  /** What the export's query hands the loop: every store once, by
    * increasing id. */
  ghost predicate AllStoresById(merchants: map<int, Merchant>, queue: seq<int>)
  {
    && Increasing(queue)
    && (forall id :: id in queue <==> id in merchants)
  }

  /** Over the whole table: the three lists together hold as many entries
    * as there are stores, so the printed grand total is the number of
    * stores. */
  lemma StoresCounted(merchants: map<int, Merchant>, queue: seq<int>)
    requires AllStoresById(merchants, queue)
    ensures forall k :: 0 <= k < |queue| ==> queue[k] in merchants
    ensures |InRegion(merchants, queue, DongNai)| + |InRegion(merchants, queue, BinhDuong)|
            + |InRegion(merchants, queue, HoChiMinh)| == |merchants|
  {
    assert forall k :: 0 <= k < |queue| ==> queue[k] in merchants by {
      forall k | 0 <= k < |queue| ensures queue[k] in merchants {
        assert queue[k] in queue;
      }
    }
    PartitionCount(merchants, queue);
    DistinctCard(queue);
    assert (set x | x in queue) == merchants.Keys by {
      forall x ensures x in (set x | x in queue) <==> x in merchants.Keys {
      }
    }
  }

  /** The loop that sorts the stores into the three lists. */
  method Classify(merchants: map<int, Merchant>, queue: seq<int>) returns (dongNai: seq<int>, binhDuong: seq<int>, hcm: seq<int>)
    requires forall k :: 0 <= k < |queue| ==> queue[k] in merchants
    ensures dongNai == InRegion(merchants, queue, DongNai)
    ensures binhDuong == InRegion(merchants, queue, BinhDuong)
    ensures hcm == InRegion(merchants, queue, HoChiMinh)
  {
    dongNai, binhDuong, hcm := [], [], [];
    var i := 0;
    while i < |queue|
      invariant 0 <= i <= |queue|
      invariant dongNai == InRegion(merchants, queue[..i], DongNai)
      invariant binhDuong == InRegion(merchants, queue[..i], BinhDuong)
      invariant hcm == InRegion(merchants, queue[..i], HoChiMinh)
    {
      assert queue[..i + 1][..i] == queue[..i];
      var m := merchants[queue[i]];
      RegionAsWrittenIsRegionOf(m);
      var region := RegionAsWritten(m.address, m.name);
      if region == DongNai {
        dongNai := dongNai + [queue[i]];
      } else if region == BinhDuong {
        binhDuong := binhDuong + [queue[i]];
      } else {
        hcm := hcm + [queue[i]];
      }
      i := i + 1;
    }
    assert queue[..i] == queue;
  }

  // ---------------------------------------------------------------------
  // A region's file
  // ---------------------------------------------------------------------

  function Rule(c: char): (r: string)
    ensures |r| == 80 && forall i :: 0 <= i < 80 ==> r[i] == c
  {
    seq(80, _ => c)
  }

  /** `value or 'N/A'`. */
  function OrNA(s: string): (r: string)
    ensures r != ""
    ensures s != "" ==> r == s
  {
    if s == "" then "N/A" else s
  }

  const TitlePrefix := "DANH SACH TAI KHOAN CUA HANG - "
  const CountPrefix := "Tong so cua hang: "
  const DefaultPasswordNote := "Tai khoan mac dinh cho tat ca merchant: Merchant123"
  const UsageNotes: seq<string> := [
    "HUONG DAN SU DUNG:",
    "1. Dang nhap voi bat ky tai khoan merchant nao trong danh sach",
    "2. Password mac dinh: Merchant123",
    "3. Sau khi dang nhap, ban se thay dashboard merchant",
    "4. Co the xac nhan don hang tu trang merchant dashboard"]

  /** The title block: the region's name upper-cased and the store count. */
  function Header(region: string, count: nat): seq<string>
  {
    [Rule('='), TitlePrefix + Upper(region), Rule('='), "",
     CountPrefix + NatToString(count), "",
     DefaultPasswordNote, "", Rule('-'), ""]
  }

  /** The closing rule and the usage notes. */
  function Footer(): seq<string>
  {
    [Rule('='), ""] + UsageNotes + [""]
  }

  /** The first line of the `number`-th entry. */
  function EntryHead(m: Merchant, owner: Option<User>, number: nat): string
  {
    if owner.Some? then NatToString(number) + ". " + m.name
    else NatToString(number) + ". " + m.name + " - CHUA CO TAI KHOAN"
  }

  /** The lines of the `number`-th entry: the login details when the store
    * has an owner, a note that it has no account otherwise. */
  function EntryLines(m: Merchant, owner: Option<User>, number: nat): (lines: seq<string>)
    ensures |lines| >= 2 && lines[0] == EntryHead(m, owner, number) && lines[|lines| - 1] == ""
  {
    match owner
    case Some(u) =>
      [EntryHead(m, owner, number), "   Username: " + u.username, "   Email: " + u.email,
       "   Password: Merchant123", "   Dia chi: " + OrNA(m.address), "   So dien thoai: " + OrNA(m.phone), ""]
    case None => [EntryHead(m, owner, number), ""]
  }

  /** The owner's account, when the owner row is there. */
  function OwnerOf(users: map<int, User>, m: Merchant): Option<User>
  {
    if m.owner in users then Some(users[m.owner]) else None
  }

  /** The entries of the stores in `list`, numbered from 1. */
  function Entries(merchants: map<int, Merchant>, users: map<int, User>, list: seq<int>): seq<string>
    requires forall k :: 0 <= k < |list| ==> list[k] in merchants
    decreases |list|
  {
    if |list| == 0 then []
    else
      var m := merchants[list[|list| - 1]];
      Entries(merchants, users, list[..|list| - 1]) + EntryLines(m, OwnerOf(users, m), |list|)
  }

  /** Entries are numbered 1, 2, 3... in list order, each store's entry
    * heading the lines it owns. */
  lemma {:induction false} EntriesNumbered(merchants: map<int, Merchant>, users: map<int, User>, list: seq<int>)
    requires forall k :: 0 <= k < |list| ==> list[k] in merchants
    ensures forall i :: 0 <= i < |list| ==>
              EntryHead(merchants[list[i]], OwnerOf(users, merchants[list[i]]), i + 1) in Entries(merchants, users, list)
    decreases |list|
  {
    if |list| > 0 {
      var init := list[..|list| - 1];
      EntriesNumbered(merchants, users, init);
      var m := merchants[list[|list| - 1]];
      var block := EntryLines(m, OwnerOf(users, m), |list|);
      var all := Entries(merchants, users, list);
      assert all == Entries(merchants, users, init) + block;
      forall i | 0 <= i < |list|
        ensures EntryHead(merchants[list[i]], OwnerOf(users, merchants[list[i]]), i + 1) in all
      {
        if i < |init| {
          assert init[i] == list[i];
        } else {
          assert block[0] in all;
        }
      }
    }
  }

  /** An entry takes seven lines when the store has an owner account and
    * two when it has none. */
  lemma {:induction false} EntriesLength(merchants: map<int, Merchant>, users: map<int, User>, list: seq<int>)
    requires forall k :: 0 <= k < |list| ==> list[k] in merchants
    ensures |Entries(merchants, users, list)| == 7 * Owned(merchants, users, list) + 2 * (|list| - Owned(merchants, users, list))
    decreases |list|
  {
    if |list| > 0 {
      EntriesLength(merchants, users, list[..|list| - 1]);
    }
  }

  /** How many stores of `list` have an owner account. */
  function Owned(merchants: map<int, Merchant>, users: map<int, User>, list: seq<int>): (n: nat)
    requires forall k :: 0 <= k < |list| ==> list[k] in merchants
    ensures n <= |list|
    decreases |list|
  {
    if |list| == 0 then 0
    else Owned(merchants, users, list[..|list| - 1]) + (if merchants[list[|list| - 1]].owner in users then 1 else 0)
  }

  function FileLines(merchants: map<int, Merchant>, users: map<int, User>, list: seq<int>, region: string): seq<string>
    requires forall k :: 0 <= k < |list| ==> list[k] in merchants
  {
    Header(region, |list|) + Entries(merchants, users, list) + Footer()
  }

  /** The file states the number of stores it lists on its fifth line and
    * ends with the usage notes. */
  lemma FileLinesFacts(merchants: map<int, Merchant>, users: map<int, User>, list: seq<int>, region: string)
    requires forall k :: 0 <= k < |list| ==> list[k] in merchants
    ensures var lines := FileLines(merchants, users, list, region);
      && lines[4] == CountPrefix + NatToString(|list|)
      && lines[1] == TitlePrefix + Upper(region)
      && lines[|lines| - 8..] == Footer()
  {
    var lines := FileLines(merchants, users, list, region);
    assert lines[|lines| - 8..] == Footer();
  }

  lemma EntriesStep(merchants: map<int, Merchant>, users: map<int, User>, list: seq<int>, i: nat)
    requires forall k :: 0 <= k < |list| ==> list[k] in merchants
    requires i < |list|
    ensures Entries(merchants, users, list[..i + 1])
            == Entries(merchants, users, list[..i]) + EntryLines(merchants[list[i]], OwnerOf(users, merchants[list[i]]), i + 1)
  {
    assert list[..i + 1][..i] == list[..i];
  }

  /** The lines appended for the `number`-th store of a list. */
  method AppendEntry(m: Merchant, users: map<int, User>, number: nat) returns (block: seq<string>)
    ensures block == EntryLines(m, OwnerOf(users, m), number)
  {
    if m.owner in users {
      var u := users[m.owner];
      block := [NatToString(number) + ". " + m.name];
      block := block + ["   Username: " + u.username];
      block := block + ["   Email: " + u.email];
      block := block + ["   Password: Merchant123"];
      block := block + ["   Dia chi: " + OrNA(m.address)];
      block := block + ["   So dien thoai: " + OrNA(m.phone)];
      block := block + [""];
    } else {
      block := [NatToString(number) + ". " + m.name + " - CHUA CO TAI KHOAN"];
      block := block + [""];
    }
  }

  /** The loop of `create_file_content`: the entries of `list`, appended
    * one store at a time. */
  method AppendEntries(merchants: map<int, Merchant>, users: map<int, User>, list: seq<int>)
    returns (entries: seq<string>)
    requires forall k :: 0 <= k < |list| ==> list[k] in merchants
    ensures entries == Entries(merchants, users, list)
  {
    entries := [];
    var i := 0;
    while i < |list|
      invariant 0 <= i <= |list|
      invariant entries == Entries(merchants, users, list[..i])
    {
      EntriesStep(merchants, users, list, i);
      var block := AppendEntry(merchants[list[i]], users, i + 1);
      entries := entries + block;
      i := i + 1;
    }
    assert list[..i] == list;
  }

  /** `create_file_content`: the header, the entries and the footer, joined
    * with newlines. */
  method CreateFileContent(merchants: map<int, Merchant>, users: map<int, User>, list: seq<int>, region: string)
    returns (text: string)
    requires forall k :: 0 <= k < |list| ==> list[k] in merchants
    ensures text == Join(FileLines(merchants, users, list, region), "\n")
  {
    var entries := AppendEntries(merchants, users, list);
    var content := Header(region, |list|) + entries + Footer();
    text := Join(content, "\n");
  }

  // ---------------------------------------------------------------------
  // The export
  // ---------------------------------------------------------------------

  const DongNaiFile: string := "tai_khoan_cua_hang_dong_nai.txt"
  const BinhDuongFile: string := "tai_khoan_cua_hang_binh_duong.txt"
  const HcmFile: string := "tai_khoan_cua_hang_tphcm.txt"

  function FileOf(r: Region): string
  {
    match r
    case DongNai => DongNaiFile
    case BinhDuong => BinhDuongFile
    case HoChiMinh => HcmFile
  }

  /** The region name printed in the file's title. */
  function TitleOf(r: Region): string
  {
    match r
    case DongNai => "DONG NAI (BIEN HOA)"
    case BinhDuong => "BINH DUONG"
    case HoChiMinh => "TP.HCM"
  }

  /** The file of one region, when its list is not empty. */
  function RegionFile(merchants: map<int, Merchant>, users: map<int, User>, list: seq<int>, file: string, title: string)
    : seq<(string, string)>
    requires forall k :: 0 <= k < |list| ==> list[k] in merchants
  {
    if |list| == 0 then [] else [(file, Join(FileLines(merchants, users, list, title), "\n"))]
  }

  /** The files written, in the order written. */
  function Written(merchants: map<int, Merchant>, users: map<int, User>, queue: seq<int>): seq<(string, string)>
    requires forall k :: 0 <= k < |queue| ==> queue[k] in merchants
  {
    InRegionInMerchants(merchants, queue, DongNai);
    InRegionInMerchants(merchants, queue, BinhDuong);
    InRegionInMerchants(merchants, queue, HoChiMinh);
    RegionFile(merchants, users, InRegion(merchants, queue, DongNai), DongNaiFile, TitleOf(DongNai))
    + RegionFile(merchants, users, InRegion(merchants, queue, BinhDuong), BinhDuongFile, TitleOf(BinhDuong))
    + RegionFile(merchants, users, InRegion(merchants, queue, HoChiMinh), HcmFile, TitleOf(HoChiMinh))
  }

  lemma InRegionInMerchants(merchants: map<int, Merchant>, queue: seq<int>, r: Region)
    requires forall k :: 0 <= k < |queue| ==> queue[k] in merchants
    ensures forall k :: 0 <= k < |InRegion(merchants, queue, r)| ==> InRegion(merchants, queue, r)[k] in merchants
  {
    InRegionMembers(merchants, queue, r);
    var ids := InRegion(merchants, queue, r);
    forall k | 0 <= k < |ids| ensures ids[k] in merchants {
      assert ids[k] in ids;
      var j :| 0 <= j < |queue| && queue[j] == ids[k];
    }
  }

  /** A region's list is non-empty exactly when some queued store lies in it. */
  lemma InRegionNonEmpty(merchants: map<int, Merchant>, queue: seq<int>, r: Region)
    requires forall k :: 0 <= k < |queue| ==> queue[k] in merchants
    ensures |InRegion(merchants, queue, r)| > 0 <==> exists id :: id in queue && RegionOf(merchants[id]) == r
  {
    InRegionMembers(merchants, queue, r);
    var ids := InRegion(merchants, queue, r);
    if |ids| > 0 {
      assert ids[0] in ids;
    }
  }

  predicate HasFile(files: seq<(string, string)>, name: string)
  {
    exists f :: f in files && f.0 == name
  }

  /** A region's output holds a file of a given name exactly when the
    * name is the region's and its list is not empty. */
  lemma RegionFileNames(merchants: map<int, Merchant>, users: map<int, User>, list: seq<int>, file: string, title: string,
                        name: string)
    requires forall k :: 0 <= k < |list| ==> list[k] in merchants
    ensures HasFile(RegionFile(merchants, users, list, file, title), name) <==> name == file && |list| > 0
  {
    var fs := RegionFile(merchants, users, list, file, title);
    if |list| > 0 {
      assert fs[0] in fs;
    }
  }

  lemma HasFileAppend(a: seq<(string, string)>, b: seq<(string, string)>, name: string)
    ensures HasFile(a + b, name) <==> HasFile(a, name) || HasFile(b, name)
  {
    if HasFile(a + b, name) {
      var f :| f in a + b && f.0 == name;
      assert f in a || f in b;
    }
    if HasFile(a, name) {
      var f :| f in a && f.0 == name;
      assert f in a + b;
    }
    if HasFile(b, name) {
      var f :| f in b && f.0 == name;
      assert f in a + b;
    }
  }

  /** The file of one region is written exactly when some store of the
    * table lies in it. */
  lemma WrittenFile(merchants: map<int, Merchant>, users: map<int, User>, queue: seq<int>, r: Region)
    requires AllStoresById(merchants, queue)
    ensures forall k :: 0 <= k < |queue| ==> queue[k] in merchants
    ensures HasFile(Written(merchants, users, queue), FileOf(r))
            <==> (exists id :: id in merchants && RegionOf(merchants[id]) == r)
  {
    StoresCounted(merchants, queue);
    InRegionNonEmpty(merchants, queue, r);
    InRegionInMerchants(merchants, queue, DongNai);
    InRegionInMerchants(merchants, queue, BinhDuong);
    InRegionInMerchants(merchants, queue, HoChiMinh);
    var dn, bd, hcm := InRegion(merchants, queue, DongNai), InRegion(merchants, queue, BinhDuong), InRegion(merchants, queue, HoChiMinh);
    var a := RegionFile(merchants, users, dn, DongNaiFile, TitleOf(DongNai));
    var b := RegionFile(merchants, users, bd, BinhDuongFile, TitleOf(BinhDuong));
    var c := RegionFile(merchants, users, hcm, HcmFile, TitleOf(HoChiMinh));
    HasFileAppend(a + b, c, FileOf(r));
    HasFileAppend(a, b, FileOf(r));
    RegionFileNames(merchants, users, dn, DongNaiFile, TitleOf(DongNai), FileOf(r));
    RegionFileNames(merchants, users, bd, BinhDuongFile, TitleOf(BinhDuong), FileOf(r));
    RegionFileNames(merchants, users, hcm, HcmFile, TitleOf(HoChiMinh), FileOf(r));
  }

  /** One region's file, when its list is not empty. */
  method WriteRegion(merchants: map<int, Merchant>, users: map<int, User>, list: seq<int>, file: string, title: string)
    returns (files: seq<(string, string)>)
    requires forall k :: 0 <= k < |list| ==> list[k] in merchants
    ensures files == RegionFile(merchants, users, list, file, title)
  {
    files := [];
    if |list| > 0 {
      var content := CreateFileContent(merchants, users, list, title);
      files := [(file, content)];
    }
  }

  /** `export_merchant_accounts`: `queue` is every store id in increasing
    * order. Returns the files written and the printed grand total. */
  method ExportMerchantAccounts(merchants: map<int, Merchant>, users: map<int, User>, queue: seq<int>)
    returns (files: seq<(string, string)>, total: nat)
    requires AllStoresById(merchants, queue)
    ensures forall k :: 0 <= k < |queue| ==> queue[k] in merchants
    ensures files == Written(merchants, users, queue)
    ensures total == |merchants|
    ensures forall r :: HasFile(files, FileOf(r)) <==> exists id :: id in merchants && RegionOf(merchants[id]) == r
  {
    StoresCounted(merchants, queue);
    var dongNai, binhDuong, hcm := Classify(merchants, queue);
    InRegionInMerchants(merchants, queue, DongNai);
    InRegionInMerchants(merchants, queue, BinhDuong);
    InRegionInMerchants(merchants, queue, HoChiMinh);
    var a := WriteRegion(merchants, users, dongNai, DongNaiFile, TitleOf(DongNai));
    var b := WriteRegion(merchants, users, binhDuong, BinhDuongFile, TitleOf(BinhDuong));
    var c := WriteRegion(merchants, users, hcm, HcmFile, TitleOf(HoChiMinh));
    files := a + b + c;
    total := |dongNai| + |binhDuong| + |hcm|;
    forall r ensures HasFile(files, FileOf(r)) <==> exists id :: id in merchants && RegionOf(merchants[id]) == r {
      WrittenFile(merchants, users, queue, r);
    }
  }
}
