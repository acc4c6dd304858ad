/** The fixed catalogue: the per-security endpoints with their sheet groups, field lists
    and query modes; the display labels of every field; the market-wide sheets. */
module Catalogue {

  /** One upstream endpoint: its name, the workbook sheet it feeds, the comma-separated
      fields it asks for, and how it is queried ("simple", "date" or "market"). */
  datatype Entry = Entry(name: string, sheet: string, fields: string, mode: string)

  /** Upper bound on the worker pool. */
  const MaxWorkers: nat := 8

  /** The benchmark index whose daily data every workbook shares (CSI 300). */
  const Csi300: string := "000300.SH"

  /** `INTERFACES`, in declaration order. */
  const Interfaces: seq<Entry> := [
    Entry("stock_company", "01_公司信息", "ts_code,com_name,chairman,manager,reg_capital,setup_date,province,city,employees,main_business", "simple"),
    Entry("stk_rewards", "02_管理层", "ts_code,ann_date,end_date,name,title,reward,hold_vol", "simple"),
    Entry("daily", "03_日线行情", "ts_code,trade_date,open,high,low,close,pre_close,change,pct_chg,vol,amount", "date"),
    Entry("adj_factor", "03_日线行情", "ts_code,trade_date,adj_factor", "date"),
    Entry("daily_basic", "04_每日指标", "ts_code,trade_date,turnover_rate,pe,pe_ttm,pb,ps,total_mv,circ_mv", "date"),
    Entry("income", "05_利润表", "ts_code,ann_date,end_date,basic_eps,total_revenue,revenue,operate_profit,n_income", "date"),
    Entry("balancesheet", "06_资产负债表", "ts_code,ann_date,end_date,money_cap,total_assets,total_liab,total_hldr_eqy_exc_min_int", "date"),
    Entry("cashflow", "07_现金流量表", "ts_code,ann_date,end_date,net_profit,n_cashflow_act,n_cashflow_inv_act,n_cash_flows_fnc_act", "date"),
    Entry("fina_indicator", "08_财务指标", "ts_code,ann_date,end_date,eps,bps,roe,roa,netprofit_margin,grossprofit_margin,debt_to_assets,or_yoy,netprofit_yoy", "date"),
    Entry("forecast", "09_业绩预告", "ts_code,ann_date,end_date,type,p_change_min,p_change_max,net_profit_min,net_profit_max", "date"),
    Entry("dividend", "10_分红送股", "ts_code,end_date,ann_date,stk_div,cash_div,record_date,ex_date", "simple"),
    Entry("fina_mainbz", "11_主营构成", "ts_code,end_date,bz_item,bz_sales,bz_profit", "date"),
    Entry("top10_holders", "12_十大股东", "ts_code,ann_date,end_date,holder_name,hold_amount,hold_ratio", "date"),
    Entry("stk_holdernumber", "13_股东户数", "ts_code,ann_date,end_date,holder_num", "date"),
    Entry("pledge_stat", "14_股权质押", "ts_code,end_date,pledge_count,unrest_pledge,pledge_ratio", "simple"),
    Entry("stk_holdertrade", "15_股东增减持", "ts_code,ann_date,holder_name,in_de,change_vol,change_ratio", "date"),
    Entry("block_trade", "16_大宗交易", "ts_code,trade_date,price,vol,amount,buyer,seller", "date"),
    Entry("moneyflow_hsgt", "17_北向资金", "trade_date,hgt,sgt,north_money", "market"),
    Entry("moneyflow_ths", "18_资金流向", "trade_date,ts_code,net_amount,buy_lg_amount,buy_md_amount,buy_sm_amount", "date"),
    Entry("margin_detail", "19_融资融券", "trade_date,ts_code,rzye,rqye,rzrqye", "date"),
    Entry("cyq_perf", "20_筹码分布", "ts_code,trade_date,cost_5pct,cost_50pct,cost_95pct,winner_rate", "date"),
    Entry("stk_factor_pro", "21_技术因子", "ts_code,trade_date,ma_qfq_5,ma_qfq_20,ma_qfq_60,macd_qfq,kdj_k_qfq,rsi_qfq_6", "date"),
    Entry("report_rc", "22_券商预测", "ts_code,report_date,org_name,quarter,eps,pe,rating", "date"),
    Entry("stk_surv", "23_机构调研", "ts_code,surv_date,fund_visitors,rece_org", "date"),
    Entry("limit_list_d", "24_涨跌停", "trade_date,ts_code,close,pct_chg,limit_times,limit", "date")
  ]

  /** `FIELD_MAP`: display labels of the per-security fields. */
  const FieldMap: map<string, string> := map[
    "ts_code" := "股票代码",
    "trade_date" := "交易日期",
    "ann_date" := "公告日期",
    "end_date" := "报告期",
    "com_name" := "公司名称",
    "chairman" := "董事长",
    "manager" := "总经理",
    "reg_capital" := "注册资本(万)",
    "setup_date" := "成立日期",
    "province" := "省份",
    "city" := "城市",
    "employees" := "员工人数",
    "main_business" := "主营业务",
    "name" := "姓名",
    "title" := "职务",
    "reward" := "薪酬(万)",
    "hold_vol" := "持股数",
    "open" := "开盘价",
    "high" := "最高价",
    "low" := "最低价",
    "close" := "收盘价",
    "pre_close" := "昨收价",
    "change" := "涨跌额",
    "pct_chg" := "涨跌幅(%)",
    "vol" := "成交量(手)",
    "amount" := "成交额(千元)",
    "adj_factor" := "复权因子",
    "turnover_rate" := "换手率(%)",
    "pe" := "市盈率",
    "pe_ttm" := "市盈率TTM",
    "pb" := "市净率",
    "ps" := "市销率",
    "total_mv" := "总市值(万)",
    "circ_mv" := "流通市值(万)",
    "basic_eps" := "每股收益",
    "total_revenue" := "营业总收入",
    "revenue" := "营业收入",
    "operate_profit" := "营业利润",
    "n_income" := "净利润",
    "money_cap" := "货币资金",
    "total_assets" := "总资产",
    "total_liab" := "总负债",
    "total_hldr_eqy_exc_min_int" := "股东权益",
    "net_profit" := "净利润",
    "n_cashflow_act" := "经营现金流",
    "n_cashflow_inv_act" := "投资现金流",
    "n_cash_flows_fnc_act" := "筹资现金流",
    "eps" := "每股收益",
    "bps" := "每股净资产",
    "roe" := "ROE(%)",
    "roa" := "ROA(%)",
    "netprofit_margin" := "净利率(%)",
    "grossprofit_margin" := "毛利率(%)",
    "debt_to_assets" := "负债率(%)",
    "or_yoy" := "营收增长(%)",
    "netprofit_yoy" := "净利增长(%)",
    "type" := "预告类型",
    "p_change_min" := "变动下限(%)",
    "p_change_max" := "变动上限(%)",
    "net_profit_min" := "净利下限(万)",
    "net_profit_max" := "净利上限(万)",
    "stk_div" := "每股送转",
    "cash_div" := "每股分红",
    "record_date" := "股权登记日",
    "ex_date" := "除权除息日",
    "bz_item" := "业务名称",
    "bz_sales" := "营业收入(元)",
    "bz_profit" := "营业利润(元)",
    "holder_name" := "股东名称",
    "hold_amount" := "持股数",
    "hold_ratio" := "持股比例(%)",
    "holder_num" := "股东户数",
    "pledge_count" := "质押次数",
    "unrest_pledge" := "无限售质押(万)",
    "pledge_ratio" := "质押比例(%)",
    "in_de" := "增减持",
    "change_vol" := "变动数量",
    "change_ratio" := "变动比例(%)",
    "price" := "成交价",
    "buyer" := "买方",
    "seller" := "卖方",
    "hgt" := "沪股通(百万)",
    "sgt" := "深股通(百万)",
    "north_money" := "北向资金(百万)",
    "net_amount" := "净流入(万)",
    "buy_lg_amount" := "大单买入(万)",
    "buy_md_amount" := "中单买入(万)",
    "buy_sm_amount" := "小单买入(万)",
    "rzye" := "融资余额",
    "rqye" := "融券余额",
    "rzrqye" := "两融余额",
    "cost_5pct" := "5%成本",
    "cost_50pct" := "50%成本",
    "cost_95pct" := "95%成本",
    "winner_rate" := "胜率(%)",
    "ma_qfq_5" := "MA5",
    "ma_qfq_20" := "MA20",
    "ma_qfq_60" := "MA60",
    "macd_qfq" := "MACD",
    "kdj_k_qfq" := "KDJ_K",
    "rsi_qfq_6" := "RSI6",
    "report_date" := "报告日期",
    "org_name" := "机构",
    "quarter" := "季度",
    "rating" := "评级",
    "surv_date" := "调研日期",
    "fund_visitors" := "参与机构",
    "rece_org" := "接待机构",
    "limit_times" := "连板数",
    "limit" := "涨跌停标识"
  ]

  /** `MARKET_FIELD_MAP`: display labels of the index fields. */
  const MarketFieldMap: map<string, string> := map[
    "ts_code" := "指数代码",
    "trade_date" := "交易日期",
    "open" := "开盘点位",
    "high" := "最高点位",
    "low" := "最低点位",
    "close" := "收盘点位",
    "pre_close" := "昨收点位",
    "change" := "涨跌点",
    "pct_chg" := "涨跌幅(%)",
    "vol" := "成交量(手)",
    "amount" := "成交额(千元)",
    "total_mv" := "总市值(元)",
    "float_mv" := "流通市值(元)",
    "total_share" := "总股本(股)",
    "float_share" := "流通股本(股)",
    "turnover_rate" := "换手率(%)",
    "turnover_rate_f" := "自由流通换手率(%)",
    "pe" := "市盈率",
    "pe_ttm" := "市盈率TTM",
    "pb" := "市净率"
  ]

  /** `SW_FIELD_MAP`: display labels of the industry-index fields. */
  const SwFieldMap: map<string, string> := map[
    "ts_code" := "行业代码",
    "trade_date" := "交易日期",
    "name" := "行业名称",
    "open" := "开盘点位",
    "close" := "收盘点位",
    "high" := "最高点位",
    "low" := "最低点位",
    "change" := "涨跌点",
    "pct_change" := "涨跌幅(%)",
    "vol" := "成交量(万股)",
    "amount" := "成交额(万元)",
    "pe" := "市盈率",
    "pb" := "市净率",
    "float_mv" := "流通市值(万元)",
    "total_mv" := "总市值(万元)"
  ]

  /** `MarketFetcher.SHEET_NAMES`, in insertion order: market dataset name and its sheet. */
  const MarketSheets: seq<(string, string)> := [
    ("index_daily", "25_大盘日线"),
    ("index_dailybasic", "26_大盘估值"),
    ("sw_daily", "27_申万行业")
  ]

  /** The three relabelling tables: per-security fields, index fields, industry-index fields. */
  datatype Labels = Labels(fields: map<string, string>, market: map<string, string>, industry: map<string, string>)

  /** The relabelling the program uses. */
  const DisplayLabels: Labels := Labels(FieldMap, MarketFieldMap, SwFieldMap)
}
