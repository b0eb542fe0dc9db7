/** The tables of permissions.py, and an input on which an appended department takes a domain away. */
module PermissionTables {
  import opened Lists
  import opened Options
  import opened Permissions
  import opened Text

  function FinanceRule(): Rule {
    Rule(Finance, ["财务", "资金", "付款", "报销", "薪资", "工资", "奖金", "回款", "finance"],
         ["财务数据", "付款审批", "报销审批", "薪资相关摘要"])
  }

  function SalesRule(): Rule {
    Rule(Sales, ["销售", "商务", "客户", "订单", "合同", "回款", "市场", "sales"], ["客户信息", "销售群", "订单和合同摘要"])
  }

  function RdRule(): Rule {
    Rule(Rd, ["研发", "技术", "工程", "测试", "软件", "硬件", "产品", "项目", "rd", "r&d"],
         ["研发项目", "技术知识库", "测试和问题记录"])
  }

  function QualityRule(): Rule {
    Rule(Quality, ["质量", "品质", "qa", "qc", "可靠性"], ["质量问题", "测试异常", "售后质量记录"])
  }

  function SupplyChainRule(): Rule {
    Rule(SupplyChain, ["采购", "供应链", "仓库", "物流", "物料", "计划", "供应商"],
         ["采购审批", "供应商和物料记录", "交付风险"])
  }

  function HrRule(): Rule {
    Rule(Hr, ["人事", "人力", "hr", "招聘", "入职", "离职", "绩效"], ["人事流程", "招聘和入离职摘要"])
  }

  function AdministrationRule(): Rule {
    Rule(Administration, ["行政", "办公", "固定资产", "差旅", "会议室"], ["行政采购审批", "办公和行政流程"])
  }

  function ApprovalLabels(): seq<string> {
    ["审批", "申请", "同意", "拒绝", "流程"]
  }

  function ApprovalRule(): Rule {
    Rule(Approval, ApprovalLabels(), ["本业务域相关审批"])
  }

  function DomainRules(): seq<Rule> {
    [FinanceRule(), SalesRule(), RdRule(), QualityRule(), SupplyChainRule(), HrRule(), AdministrationRule(),
     ApprovalRule()]
  }

  function AdminTerms(): seq<string> {
    ["董事长", "总经理", "ceo", "coo", "总裁", "法人"]
  }

  function ManagerTerms(): seq<string> {
    ["负责人", "总监", "经理", "主管", "leader", "head", "director", "vp", "cfo", "cto"]
  }

  function CompanyTables(): Tables {
    Tables(DomainRules(), AdminTerms(), ManagerTerms(), ["全公司工作事件", "全局日报", "跨部门风险"])
  }

  /** lower() on text without capitals. */
  function Unchanged(c: char): string {
    [c]
  }

  lemma {:induction false} UnchangedText(s: string)
    ensures LowerBy(Unchanged, s) == s
  {
    if s != "" {
      UnchangedText(s[..|s| - 1]);
      assert LowerBy(Unchanged, s) == s[..|s| - 1] + [s[|s| - 1]];
    }
  }

  lemma {:induction false} MissingChar(s: string, part: string, k: nat)
    requires k < |part| && part[k] !in s
    ensures !Contains(s, part)
  {
    if s != "" { MissingChar(s[1..], part, k); }
    assert !(part <= s) by {
      assert k < |s| ==> s[k] in s;
    }
  }

  /** Each of the terms has, at the given place, a character the text lacks. */
  lemma NoneIn(parts: seq<string>, s: string)
    requires forall part <- parts :: exists k :: 0 <= k < |part| && part[k] !in s
    ensures !AnyIn(Unchanged, parts, s)
  {
    forall part | part in parts ensures !Contains(s, LowerBy(Unchanged, part)) {
      var k :| 0 <= k < |part| && part[k] !in s;
      UnchangedText(part);
      MissingChar(s, part, k);
    }
  }

  const BEFORE := "经理 财务"
  const AFTER := "经理 财务 总裁"

  lemma NoAdminTermBefore()
    ensures !AnyIn(Unchanged, AdminTerms(), BEFORE)
  {
    var terms := AdminTerms();
    assert terms[0][0] !in BEFORE && terms[1][0] !in BEFORE && terms[2][0] !in BEFORE;
    assert terms[3][0] !in BEFORE && terms[4][0] !in BEFORE && terms[5][0] !in BEFORE;
    NoneIn(terms, BEFORE);
  }

  lemma NoApprovalAfter()
    ensures !AnyIn(Unchanged, ApprovalLabels(), AFTER)
  {
    var labels := ApprovalLabels();
    assert labels[0][0] !in AFTER && labels[1][0] !in AFTER && labels[2][0] !in AFTER;
    assert labels[3][0] !in AFTER && labels[4][0] !in AFTER;
    NoneIn(labels, AFTER);
  }

  lemma {:induction false} ContainsAt(s: string, part: string, i: nat)
    requires i <= |s| && part <= s[i..]
    ensures Contains(s, part)
  {
    if i > 0 {
      assert s[1..][i - 1..] == s[i..];
      ContainsAt(s[1..], part, i - 1);
    } else {
      assert s[0..] == s;
    }
  }

  lemma FoundAt(parts: seq<string>, s: string, k: nat, i: nat)
    requires k < |parts| && i <= |s| && parts[k] <= s[i..]
    ensures AnyIn(Unchanged, parts, s)
  {
    UnchangedText(parts[k]);
    ContainsAt(s, parts[k], i);
    assert parts[k] in parts;
  }

  lemma ManagerOfFinanceBefore()
    ensures AnyIn(Unchanged, FinanceRule().labels, BEFORE) && AnyIn(Unchanged, ManagerTerms(), BEFORE)
  {
    assert FinanceRule().labels[0] <= BEFORE[3..];
    FoundAt(FinanceRule().labels, BEFORE, 0, 3);
    assert ManagerTerms()[2] <= BEFORE[0..];
    FoundAt(ManagerTerms(), BEFORE, 2, 0);
  }

  lemma AdminAfter()
    ensures AnyIn(Unchanged, AdminTerms(), AFTER)
  {
    assert AdminTerms()[4] <= AFTER[6..];
    FoundAt(AdminTerms(), AFTER, 4, 6);
  }

  /** The one rule of approvals is the last. */
  lemma OnlyApprovalRule(rule: Rule)
    requires rule in DomainRules() && rule.domain == Approval
    ensures rule == ApprovalRule()
  {
  }

  /** Finance is found through its rule, and approvals only through theirs. */
  lemma FinanceFound(lowered: string)
    requires AnyIn(Unchanged, FinanceRule().labels, lowered)
    ensures Found(CompanyTables(), Unchanged, lowered, Finance)
  {
    assert DomainRules()[0] == FinanceRule();
  }

  lemma ApprovalNotFound(lowered: string)
    requires !AnyIn(Unchanged, ApprovalLabels(), lowered)
    ensures !Found(CompanyTables(), Unchanged, lowered, Approval)
  {
    forall rule | rule in DomainRules() && rule.domain == Approval ensures !AnyIn(Unchanged, rule.labels, lowered) {
      OnlyApprovalRule(rule);
    }
  }

  lemma BlankIsDropped(items: seq<string>)
    ensures NonEmpty(items + [""]) == NonEmpty(items)
  {
    assert (items + [""])[..|items|] == items && NonEmpty(items) + [] == NonEmpty(items);
  }

  lemma TextIsKept(items: seq<string>, text: string)
    requires text != ""
    ensures NonEmpty(items + [text]) == NonEmpty(items) + [text]
    ensures items != [] ==> Join(items + [text]) == Join(items) + " " + text
  {
    assert (items + [text])[..|items|] == items;
  }

  /** A person known by name only is searched as the name and the departments. */
  lemma NameAndDepartments(p: Person, name: string, departments: seq<string>)
    requires p == Person(Some(name), None, None) && name != "" && Join(departments) != ""
    ensures SearchText(p, departments) == name + " " + Join(departments)
  {
    var joined, blanks := Join(departments), [name] + [""] + [""];
    assert [OrEmpty(p.displayName), OrEmpty(p.jobTitle), OrEmpty(p.email)] == blanks;
    TextIsKept([], name);
    assert [] + [name] == [name];
    BlankIsDropped([name]);
    BlankIsDropped([name] + [""]);
    TextIsKept(blanks, joined);
    TextIsKept([name], joined);
  }

  lemma SearchTexts(p: Person)
    requires p == Person(Some("经理"), None, None)
    ensures SearchText(p, ["财务"]) == BEFORE && SearchText(p, ["财务", "总裁"]) == AFTER
  {
    assert ["财务", "总裁"][..1] == ["财务"];
    NameAndDepartments(p, "经理", ["财务"]);
    NameAndDepartments(p, "经理", ["财务", "总裁"]);
  }

  lemma ApprovalIsLost()
    ensures LosesApproval(CompanyTables(), Unchanged, BEFORE, AFTER)
  {
    NoAdminTermBefore();
    ManagerOfFinanceBefore();
    AdminAfter();
    NoApprovalAfter();
    FinanceFound(BEFORE);
    ApprovalNotFound(AFTER);
    MatchedIsFound(CompanyTables(), Unchanged, BEFORE);
  }

  /** A manager called 经理 in the department 财务 may ask about approvals; once the department 总裁 is
      appended the list of domains is without "approval". */
  lemma AppendingTakesApprovalAway()
    ensures var p := Person(Some("经理"), None, None);
            Loses(ProfileOf(CompanyTables(), Unchanged, p, ["财务"]),
                  ProfileOf(CompanyTables(), Unchanged, p, ["财务"] + ["总裁"]), Approval)
  {
    var p := Person(Some("经理"), None, None);
    SearchTexts(p);
    assert ["财务"] + ["总裁"] == ["财务", "总裁"];
    UnchangedText(BEFORE);
    UnchangedText(AFTER);
    ApprovalIsLost();
    DomainIsLostIff(CompanyTables(), Unchanged, p, ["财务"], "总裁", Approval);
  }
}
