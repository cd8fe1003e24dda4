/** The result records the decoders return. */
module Dto {
  import opened Wrappers
  import opened Numbers

  datatype CustomerRevenueResponse = CustomerRevenueResponse(customer: string, orderCount: Long, totalSpent: real)

  datatype CustomerRevenue = CustomerRevenue(customer: string, totalSpent: real)

  datatype CustomerOrderStats = CustomerOrderStats(orderCount: Long, avgOrderValue: real, maxOrderValue: real)

  datatype DailySalesStats = DailySalesStats(orderCount: Long, totalSales: real, avgSales: real)

  datatype CategoryStats = CategoryStats(category: string, totalSales: real, avgSales: real, maxSale: real)

  datatype RevenueStatsResponse = RevenueStatsResponse(totalRevenue: real, averageOrderValue: real, minOrderAmount: real, maxOrderAmount: real)

  /** Smallest and largest order amount; None means the store reported no value, which is
      kept apart from a reported 0. */
  datatype MinMax = MinMax(min: Option<real>, max: Option<real>)
}
